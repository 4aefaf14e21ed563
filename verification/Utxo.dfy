/**
 Choosing which unspent outpoints pay for a lockout, and marking them so that one primary never
 hands the same outpoint to two operations.
 */
module Utxo {
  import opened Collections

  datatype Status = NotUsed | PreSelect | Commit

  datatype Outpoint = Outpoint(Amount: int, PBFTStatus: Status, View: int, PBFTReason: string)

  type Table = map<string, Outpoint>

  datatype Result<T> = Ok(value: T) | Err(error: Error)

  datatype Error = NotFound | DuplicateUse | AlreadyUsed | NoneAvailable | BadAuxiliary

  const LIMIT: nat := 10

  // ---------- what can be chosen ----------

  /** Unused, or only pre-selected by another primary. */
  predicate Available(o: Outpoint, view: int) {
    o.PBFTStatus == NotUsed || (o.PBFTStatus == PreSelect && o.View != view)
  }

  function AvailableKeys(t: Table, view: int): set<string> {
    set k | k in t && Available(t[k], view)
  }

  /** A choice of outpoints: available ones, each once. */
  ghost predicate Choice(t: Table, view: int, xs: seq<string>) {
    Distinct(xs) && forall k :: 0 <= k < |xs| ==> xs[k] in t && Available(t[xs[k]], view)
  }

  function Total(t: Table, xs: seq<string>): int
    requires forall k :: 0 <= k < |xs| ==> xs[k] in t
  {
    if xs == [] then 0 else Total(t, xs[..|xs| - 1]) + t[xs[|xs| - 1]].Amount
  }

  /** The rows of the second query: available, from the largest amount down, cut off at the limit. */
  ghost predicate TopRows(t: Table, view: int, rows: seq<string>) {
    && Choice(t, view, rows)
    && (forall i, j :: 0 <= i < j < |rows| ==> t[rows[i]].Amount >= t[rows[j]].Amount)
    && (forall k :: k in AvailableKeys(t, view) && k !in rows ==> forall i :: 0 <= i < |rows| ==> t[rows[i]].Amount >= t[k].Amount)
    && (|rows| == LIMIT || (|rows| < LIMIT && forall k :: k in AvailableKeys(t, view) ==> k in rows))
  }

  /** The first row of the first query: a smallest available outpoint that suffices by itself. */
  ghost predicate BestFit(t: Table, view: int, amount: int, best: Result<string>) {
    match best
    case Ok(k) =>
      k in AvailableKeys(t, view) && t[k].Amount >= amount &&
      forall x :: x in AvailableKeys(t, view) && t[x].Amount >= amount ==> t[k].Amount <= t[x].Amount
    case Err(_) =>
      forall x :: x in AvailableKeys(t, view) ==> t[x].Amount < amount
  }

  // ---------- the two queries ----------

  method QueryBestFit(t: Table, view: int, amount: int) returns (best: Result<string>)
    ensures BestFit(t, view, amount, best)
  {
    best := Err(NoneAvailable);
    var rem := AvailableKeys(t, view);
    while rem != {}
      invariant rem <= AvailableKeys(t, view)
      invariant best.Ok? ==> best.value in AvailableKeys(t, view) && t[best.value].Amount >= amount
      invariant best.Ok? ==> forall x :: x in AvailableKeys(t, view) && x !in rem && t[x].Amount >= amount ==> t[best.value].Amount <= t[x].Amount
      invariant best.Err? ==> forall x :: x in AvailableKeys(t, view) && x !in rem ==> t[x].Amount < amount
      decreases |rem|
    {
      var k :| k in rem;
      if t[k].Amount >= amount && (best.Err? || t[k].Amount < t[best.value].Amount) {
        best := Ok(k);
      }
      rem := rem - {k};
    }
  }

  method Largest(t: Table, keys: set<string>) returns (k: string)
    requires keys != {} && forall x :: x in keys ==> x in t
    ensures k in keys && forall x :: x in keys ==> t[x].Amount <= t[k].Amount
  {
    k :| k in keys;
    var rem := keys - {k};
    while rem != {}
      invariant rem <= keys && k in keys
      invariant forall x :: x in keys && x !in rem ==> t[x].Amount <= t[k].Amount
      decreases |rem|
    {
      var x :| x in rem;
      if t[x].Amount > t[k].Amount {
        k := x;
      }
      rem := rem - {x};
    }
  }

  method QueryTop(t: Table, view: int) returns (rows: seq<string>)
    ensures TopRows(t, view, rows)
  {
    rows := [];
    var left := AvailableKeys(t, view);
    while left != {} && |rows| < LIMIT
      invariant |rows| <= LIMIT && left <= AvailableKeys(t, view) && Choice(t, view, rows)
      invariant forall k :: k in AvailableKeys(t, view) <==> k in left || k in rows
      invariant forall k :: k in rows ==> k !in left
      invariant forall i, j :: 0 <= i < j < |rows| ==> t[rows[i]].Amount >= t[rows[j]].Amount
      invariant forall i, k :: 0 <= i < |rows| && k in left ==> t[rows[i]].Amount >= t[k].Amount
      decreases |left|
    {
      var k := Largest(t, left);
      rows := rows + [k];
      left := left - {k};
    }
  }

  // ---------- choosing ----------

  lemma TotalSnoc(t: Table, xs: seq<string>, x: string)
    requires (forall k :: 0 <= k < |xs| ==> xs[k] in t) && x in t
    ensures Total(t, xs + [x]) == Total(t, xs) + t[x].Amount
  {
    assert (xs + [x])[..|xs|] == xs;
  }

  /** No nonempty prefix of fewer than `n` rows reaches the amount. */
  ghost predicate Short(t: Table, rows: seq<string>, n: nat, amount: int)
    requires n <= |rows| + 1 && forall k :: 0 <= k < |rows| ==> rows[k] in t
  {
    forall m :: 0 < m < n ==> Total(t, rows[..m]) < amount
  }

  /** The shortest nonempty prefix of the rows that reaches the amount, if there is one. */
  ghost predicate FirstEnough(t: Table, rows: seq<string>, amount: int, r: Result<seq<string>>)
    requires forall k :: 0 <= k < |rows| ==> rows[k] in t
  {
    match r
    case Ok(xs) => 0 < |xs| <= |rows| && xs == rows[..|xs|] && Total(t, xs) >= amount && Short(t, rows, |xs|, amount)
    case Err(e) => e == NoneAvailable && Short(t, rows, |rows| + 1, amount)
  }

  /**
   What the selection returns: the best fit alone, or else the shortest sufficient prefix of the
   largest rows.  The second query is made only when the first finds nothing.
   */
  ghost predicate Selected(t: Table, view: int, amount: int, best: Result<string>, rows: seq<string>, r: Result<seq<string>>) {
    && BestFit(t, view, amount, best)
    && match best
       case Ok(k) => r == Ok([k])
       case Err(_) => TopRows(t, view, rows) && FirstEnough(t, rows, amount, r)
  }

  /** One of the results the two queries may lead to; ties are broken by the database. */
  ghost predicate Chosen(t: Table, view: int, amount: int, r: Result<seq<string>>) {
    exists best, rows :: Selected(t, view, amount, best, rows, r)
  }

  /** The rows taken so far are a prefix, add up to the sum, and no shorter prefix was enough. */
  ghost predicate Adding(t: Table, rows: seq<string>, amount: int, i: nat, res: seq<string>, sum: int)
    requires i <= |rows| && forall k :: 0 <= k < |rows| ==> rows[k] in t
  {
    res == rows[..i] && sum == Total(t, rows[..i]) && Short(t, rows, i + 1, amount)
  }

  lemma AddingStarts(t: Table, rows: seq<string>, amount: int)
    requires forall k :: 0 <= k < |rows| ==> rows[k] in t
    ensures Adding(t, rows, amount, 0, [], 0)
  {
  }

  /** One more row either ends the search or leaves the prefix still short. */
  lemma AddingSteps(t: Table, rows: seq<string>, amount: int, i: nat, res: seq<string>, sum: int)
    requires i < |rows| && (forall k :: 0 <= k < |rows| ==> rows[k] in t) && Adding(t, rows, amount, i, res, sum)
    ensures var sum' := sum + t[rows[i]].Amount;
            var res' := res + [rows[i]];
            if sum' >= amount then FirstEnough(t, rows, amount, Ok(res')) else Adding(t, rows, amount, i + 1, res', sum')
  {
    assert rows[..i + 1] == rows[..i] + [rows[i]];
    TotalSnoc(t, rows[..i], rows[i]);
  }

  method Accumulate(t: Table, rows: seq<string>, amount: int) returns (r: Result<seq<string>>)
    requires forall k :: 0 <= k < |rows| ==> rows[k] in t
    ensures FirstEnough(t, rows, amount, r)
  {
    AddingStarts(t, rows, amount);
    hide Short, Total;
    var sum, res := 0, [];
    for i := 0 to |rows|
      invariant Adding(t, rows, amount, i, res, sum)
    {
      AddingSteps(t, rows, amount, i, res, sum);
      sum := sum + t[rows[i]].Amount;
      res := res + [rows[i]];
      if sum >= amount {
        return Ok(res);
      }
    }
    return Err(NoneAvailable);
  }

  /** For a positive amount the choice covers it with as few outpoints as any choice can; it fails only if no ten cover it. */
  method GetAvailableUTXO(t: Table, view: int, amount: int) returns (r: Result<seq<string>>)
    ensures Chosen(t, view, amount, r)
    ensures r.Ok? ==> Choice(t, view, r.value)
    ensures amount > 0 ==> Optimal(t, view, amount, r)
  {
    var best := QueryBestFit(t, view, amount);
    ghost var rows: seq<string> := [];
    if best.Ok? {
      r := Ok([best.value]);
    } else {
      var outpoints := QueryTop(t, view);
      rows := outpoints;
      r := Accumulate(t, outpoints, amount);
    }
    assert Selected(t, view, amount, best, rows, r);
    SelectedIsChoice(t, view, amount, best, rows, r);
    if amount > 0 {
      SelectionOptimal(t, view, amount, best, rows, r);
    }
  }

  // ---------- the choice is the best one ----------

  ghost function Members(xs: seq<string>): set<string> {
    set k | 0 <= k < |xs| :: xs[k]
  }

  lemma {:induction false} MembersCount(xs: seq<string>)
    requires Distinct(xs)
    ensures |Members(xs)| == |xs|
  {
    if xs != [] {
      var m := |xs| - 1;
      MembersCount(xs[..m]);
      assert Members(xs) == Members(xs[..m]) + {xs[m]} by {
        forall k | k in Members(xs)
          ensures k in Members(xs[..m]) + {xs[m]}
        {
          var i :| 0 <= i < |xs| && xs[i] == k;
          if i < m { assert xs[..m][i] == k; }
        }
      }
      assert xs[m] !in Members(xs[..m]);
    }
  }

  /** Among more choices than rows some choice is not one of the rows. */
  lemma SomeOutside(ys: seq<string>, rows: seq<string>) returns (i: nat)
    requires Distinct(ys) && Distinct(rows) && |ys| > |rows|
    ensures i < |ys| && ys[i] !in rows
  {
    if forall k :: 0 <= k < |ys| ==> ys[k] in rows {
      MembersCount(ys);
      MembersCount(rows);
      AllInside(ys, rows);
      SubsetSize(Members(ys), Members(rows));
    }
    i :| i < |ys| && ys[i] !in rows;
  }

  lemma AllInside(ys: seq<string>, rows: seq<string>)
    requires forall k :: 0 <= k < |ys| ==> ys[k] in rows
    ensures Members(ys) <= Members(rows)
  {
  }

  lemma {:induction false} TotalWithout(t: Table, ys: seq<string>, i: nat)
    requires i < |ys| && forall k :: 0 <= k < |ys| ==> ys[k] in t
    ensures Total(t, ys) == Total(t, ys[..i] + ys[i + 1..]) + t[ys[i]].Amount
  {
    var m := |ys| - 1;
    if i == m {
      assert ys[..i] + ys[i + 1..] == ys[..m];
    } else {
      var zs := ys[..m];
      TotalWithout(t, zs, i);
      assert ys[..i] + ys[i + 1..] == (zs[..i] + zs[i + 1..]) + [ys[m]];
      TotalSnoc(t, zs[..i] + zs[i + 1..], ys[m]);
    }
  }

  /** The first rows are worth at least as much as any other choice of the same size. */
  lemma {:induction false} TopDominates(t: Table, view: int, rows: seq<string>, ys: seq<string>)
    requires TopRows(t, view, rows) && Choice(t, view, ys) && |ys| <= |rows|
    ensures Total(t, ys) <= Total(t, rows[..|ys|])
    decreases |ys|
  {
    if ys != [] {
      var m := |ys| - 1;
      var i := SomeOutside(ys, rows[..m]);
      var rest := ys[..i] + ys[i + 1..];
      TotalWithout(t, ys, i);
      OutsidePrefix(rows, m, ys[i]);
      NotAbove(t, view, rows, m, ys[i]);
      TopDominates(t, view, rows, rest);
      assert rows[..|ys|] == rows[..m] + [rows[m]];
      TotalSnoc(t, rows[..m], rows[m]);
    }
  }

  lemma OutsidePrefix(rows: seq<string>, m: nat, y: string)
    requires m <= |rows| && y !in rows[..m]
    ensures forall i :: 0 <= i < m ==> rows[i] != y
  {
    forall i | 0 <= i < m
      ensures rows[i] != y
    {
      assert rows[..m][i] == rows[i];
    }
  }

  lemma NotAbove(t: Table, view: int, rows: seq<string>, m: nat, y: string)
    requires TopRows(t, view, rows) && m < |rows| && y in t && Available(t[y], view) && forall i :: 0 <= i < m ==> rows[i] != y
    ensures t[y].Amount <= t[rows[m]].Amount
  {
    assert y in AvailableKeys(t, view);
    if y in rows {
      var i :| 0 <= i < |rows| && rows[i] == y;
    }
  }

  lemma ChoiceFits(t: Table, view: int, rows: seq<string>, ys: seq<string>)
    requires TopRows(t, view, rows) && Choice(t, view, ys) && |ys| <= LIMIT
    ensures |ys| <= |rows|
  {
    if |rows| < LIMIT {
      forall k | 0 <= k < |ys|
        ensures ys[k] in rows
      {
        assert ys[k] in AvailableKeys(t, view);
      }
      AllInside(ys, rows);
      MembersCount(ys);
      MembersCount(rows);
      SubsetSize(Members(ys), Members(rows));
    }
  }

  /** A choice no longer than the rows, and shorter than every sufficient prefix, does not reach the amount. */
  lemma ShortChoiceFails(t: Table, view: int, amount: int, rows: seq<string>, n: nat, ys: seq<string>)
    requires amount > 0 && TopRows(t, view, rows) && n <= |rows| + 1 && Short(t, rows, n, amount)
    requires Choice(t, view, ys) && |ys| < n && |ys| <= |rows|
    ensures Total(t, ys) < amount
  {
    TopDominates(t, view, rows, ys);
  }

  /** Covers the amount with the fewest outpoints, each available and used once; fails only when no choice within the limit covers it. */
  ghost predicate Optimal(t: Table, view: int, amount: int, r: Result<seq<string>>) {
    match r
    case Ok(xs) =>
      && Choice(t, view, xs) && |xs| <= LIMIT && Total(t, xs) >= amount
      && forall ys :: Choice(t, view, ys) && Total(t, ys) >= amount ==> |xs| <= |ys|
    case Err(_) =>
      forall ys :: Choice(t, view, ys) && |ys| <= LIMIT ==> Total(t, ys) < amount
  }

  /** The selection is optimal for every table, view and positive amount. */
  lemma SelectionOptimal(t: Table, view: int, amount: int, best: Result<string>, rows: seq<string>, r: Result<seq<string>>)
    requires amount > 0 && Selected(t, view, amount, best, rows, r)
    ensures Optimal(t, view, amount, r)
  {
    if best.Ok? {
      assert Total(t, [best.value]) == t[best.value].Amount by { TotalSnoc(t, [], best.value); }
      forall ys | Choice(t, view, ys) && Total(t, ys) >= amount
        ensures 1 <= |ys|
      {
      }
    } else if r.Ok? {
      var n := |r.value|;
      assert Choice(t, view, rows[..n]);
      forall ys | Choice(t, view, ys) && Total(t, ys) >= amount
        ensures n <= |ys|
      {
        if |ys| < n {
          ShortChoiceFails(t, view, amount, rows, n, ys);
        }
      }
    } else {
      forall ys | Choice(t, view, ys) && |ys| <= LIMIT
        ensures Total(t, ys) < amount
      {
        ChoiceFits(t, view, rows, ys);
        ShortChoiceFails(t, view, amount, rows, |rows| + 1, ys);
      }
    }
  }

  // ---------- marking ----------

  function PreSelected(t: Table, tx: string, view: int): Table
    requires tx in t
  {
    t[tx := t[tx].(PBFTStatus := PreSelect, View := view)]
  }

  /** What marking a list of outpoints for a primary does. */
  function AllPreSelected(t: Table, txs: seq<string>, view: int): (r: Table)
    requires forall k :: 0 <= k < |txs| ==> txs[k] in t
    ensures r.Keys == t.Keys
  {
    if txs == [] then t else PreSelected(AllPreSelected(t, txs[..|txs| - 1], view), txs[|txs| - 1], view)
  }

  lemma {:induction false} MarkedEntries(t: Table, txs: seq<string>, view: int)
    requires forall k :: 0 <= k < |txs| ==> txs[k] in t
    ensures forall k :: k in t ==> AllPreSelected(t, txs, view)[k] == if k in txs then t[k].(PBFTStatus := PreSelect, View := view) else t[k]
  {
    if txs != [] {
      MarkedEntries(t, txs[..|txs| - 1], view);
    }
  }

  lemma SelectedIsChoice(t: Table, view: int, amount: int, best: Result<string>, rows: seq<string>, r: Result<seq<string>>)
    requires Selected(t, view, amount, best, rows, r)
    ensures r.Ok? ==> Choice(t, view, r.value)
  {
  }

  /** The first `i` outpoints were free, each once, and are marked now. */
  ghost predicate MarkedSoFar(t: Table, txs: seq<string>, i: nat, view: int, now: Table)
    requires i <= |txs|
  {
    Choice(t, view, txs[..i]) && now == AllPreSelected(t, txs[..i], view)
  }

  lemma MarkingStarts(t: Table, txs: seq<string>, view: int)
    ensures MarkedSoFar(t, txs, 0, view, t)
  {
  }

  /** The next outpoint can be marked exactly when the list is still a choice from the original table. */
  lemma MarkingSteps(t: Table, txs: seq<string>, i: nat, view: int, now: Table)
    requires i < |txs| && MarkedSoFar(t, txs, i, view, now)
    ensures if txs[i] in now && Available(now[txs[i]], view)
            then MarkedSoFar(t, txs, i + 1, view, PreSelected(now, txs[i], view))
            else !Choice(t, view, txs[..i + 1]) && !Choice(t, view, txs)
  {
    MarkedEntries(t, txs[..i], view);
    assert txs[..i + 1] == txs[..i] + [txs[i]];
    assert txs[..i + 1][..i] == txs[..i];
    if txs[i] in txs[..i] {
      var j :| 0 <= j < i && txs[..i][j] == txs[i];
      assert txs[j] == txs[i] && txs[..i + 1][j] == txs[..i + 1][i];
    } else if txs[i] in t && !Available(t[txs[i]], view) {
      assert txs[..i + 1][i] == txs[i];
    } else if txs[i] !in t {
      assert txs[..i + 1][i] == txs[i];
    } else {
      ChoiceGrows(t, view, txs[..i], txs[i]);
    }
  }

  lemma ChoiceGrows(t: Table, view: int, xs: seq<string>, x: string)
    requires Choice(t, view, xs) && x !in xs && x in t && Available(t[x], view)
    ensures Choice(t, view, xs + [x])
  {
  }

  /** Marking a list: it succeeds exactly on a choice; on the first refusal the outpoints before it stay marked. */
  ghost predicate Marked(t: Table, txs: seq<string>, view: int, ok: bool, now: Table) {
    && (ok <==> Choice(t, view, txs))
    && (ok ==> Choice(t, view, txs) && now == AllPreSelected(t, txs, view))
    && (!ok ==> exists i :: 0 <= i < |txs| && MarkedSoFar(t, txs, i, view, now) && !Choice(t, view, txs[..i + 1]))
  }

  lemma MarkingEnds(t: Table, txs: seq<string>, view: int, now: Table)
    requires MarkedSoFar(t, txs, |txs|, view, now)
    ensures Marked(t, txs, view, true, now)
  {
    assert txs[..|txs|] == txs;
  }

  class OutpointStore {
    var table: Table

    constructor (t: Table)
      ensures table == t
    {
      table := t;
    }

    /** A primary may not take an outpoint twice, and nobody may take a committed one. */
    method PreSelectUTXO(tx: string, view: int) returns (r: Result<()>)
      modifies this
      ensures r.Ok? <==> tx in old(table) && Available(old(table)[tx], view)
      ensures r == if tx !in old(table) then Err(NotFound)
                   else if old(table)[tx].PBFTStatus == Commit then Err(AlreadyUsed)
                   else if old(table)[tx].PBFTStatus == PreSelect && old(table)[tx].View == view then Err(DuplicateUse)
                   else Ok(())
      ensures table == if r.Ok? then PreSelected(old(table), tx, view) else old(table)
    {
      if tx !in table {
        return Err(NotFound);
      }
      var o := table[tx];
      if o.PBFTStatus == Commit {
        return Err(AlreadyUsed);
      }
      if o.PBFTStatus == PreSelect && o.View == view {
        return Err(DuplicateUse);
      }
      table := table[tx := o.(PBFTStatus := PreSelect, View := view)];
      return Ok(());
    }

    /** Committing checks nothing; an unknown outpoint is left unknown. */
    method CommitUTXO(tx: string, view: int, reason: string)
      modifies this
      ensures table == if tx in old(table) then old(table)[tx := old(table)[tx].(PBFTStatus := Commit, View := view, PBFTReason := reason)]
                       else old(table)
    {
      if tx in table {
        table := table[tx := table[tx].(PBFTStatus := Commit, View := view, PBFTReason := reason)];
      }
    }

    /**
     The primary chooses outpoints for an operation, marks them at once and writes them behind the
     digest. Marking what was just chosen never fails, so it errs only if nothing covers the amount.
     */
    method GetOpAuxiliary(digest: string, amount: int, view: int) returns (r: Result<string>, ghost txs: seq<string>)
      modifies this
      ensures r.Ok? ==> Choice(old(table), view, txs) && table == AllPreSelected(old(table), txs, view) && r.value == Joined(digest, txs)
      ensures Chosen(old(table), view, amount, if r.Ok? then Ok(txs) else Err(r.error))
      ensures r.Ok? && amount > 0 ==> Optimal(old(table), view, amount, Ok(txs))
      ensures r.Err? ==> table == old(table) && (amount > 0 ==> Optimal(old(table), view, amount, Err(r.error)))
    {
      var os := GetAvailableUTXO(table, view, amount);
      txs := [];
      if os.Err? {
        return Err(os.error), [];
      }
      txs := os.value;
      r := WriteAndMark(digest, os.value, view);
    }

    method WriteAndMark(digest: string, os: seq<string>, view: int) returns (r: Result<string>)
      modifies this
      ensures Marked(old(table), os, view, r.Ok?, table)
      ensures r.Ok? ==> r.value == Joined(digest, os)
    {
      var bf := digest + "-";
      MarkingStarts(table, os, view);
      hide MarkedSoFar, PreSelected, Available;
      for i := 0 to |os|
        invariant MarkedSoFar(old(table), os, i, view, table)
        invariant bf == Joined(digest, os[..i]) + "-"
      {
        MarkingSteps(old(table), os, i, view, table);
        bf := bf + os[i] + "-";
        assert os[..i + 1][..i] == os[..i];
        var err := PreSelectUTXO(os[i], view);
        if err.Err? {
          return Err(err.error);
        }
      }
      MarkingEnds(old(table), os, view, table);
      assert os[..|os|] == os;
      return Ok(bf[..|bf| - 1]);
    }

    method PreSelectAll(txs: seq<string>, view: int) returns (r: Result<()>)
      modifies this
      ensures Marked(old(table), txs, view, r.Ok?, table)
    {
      MarkingStarts(table, txs, view);
      hide MarkedSoFar, PreSelected, Available;
      for i := 0 to |txs|
        invariant MarkedSoFar(old(table), txs, i, view, table)
      {
        MarkingSteps(old(table), txs, i, view, table);
        var err := PreSelectUTXO(txs[i], view);
        if err.Err? {
          return Err(err.error);
        }
      }
      MarkingEnds(old(table), txs, view, table);
      return Ok(());
    }

    /** A backup marks what the primary chose; the primary itself has done so already. */
    method PrepareSeq(self: int, view: int, auxiliary: string) returns (r: Result<()>)
      modifies this
      ensures self == view ==> r == Ok(()) && table == old(table)
      ensures self != view && |Split(auxiliary)| <= 1 ==> r == Err(BadAuxiliary) && table == old(table)
      ensures self != view && |Split(auxiliary)| > 1 ==> Marked(old(table), Split(auxiliary)[1..], view, r.Ok?, table)
    {
      if self == view {
        return Ok(());
      }
      if auxiliary == "" {
        return Err(BadAuxiliary);
      }
      var ss := Split(auxiliary);
      if |ss| <= 1 {
        return Err(BadAuxiliary);
      }
      r := PreSelectAll(ss[1..], view);
    }

    /** Every outpoint named after the digest ends up committed to this primary, and nothing else changes. */
    method CommitSeq(view: int, op: string, auxiliary: string) returns (r: Result<()>)
      modifies this
      ensures r == if auxiliary == "" then Err(BadAuxiliary) else Ok(())
      ensures r.Err? ==> table == old(table)
      ensures r.Ok? ==> AllCommitted(old(table), Split(auxiliary)[1..], view, op, table)
    {
      if auxiliary == "" {
        return Err(BadAuxiliary);
      }
      var txs := Split(auxiliary)[1..];
      for i := 0 to |txs|
        invariant AllCommitted(old(table), txs[..i], view, op, table)
      {
        assert txs[..i + 1] == txs[..i] + [txs[i]];
        CommitUTXO(txs[i], view, op);
      }
      assert txs[..|txs|] == txs;
      return Ok(());
    }
  }

  ghost predicate AllCommitted(t: Table, txs: seq<string>, view: int, op: string, now: Table) {
    && now.Keys == t.Keys
    && forall k :: k in t ==> now[k] == if k in txs then t[k].(PBFTStatus := Commit, View := view, PBFTReason := op) else t[k]
  }

  // ---------- one primary's view ----------

  /** The sets handed to operations, in order. */
  type Sets = seq<seq<string>>

  /**
   What can happen to the table while a replica is the primary.  `Foreign` is a pre-selection for
   another primary: a pre-prepare is prepared in the table before its view is compared with the
   replica's own, so one that names another notary's id as its view gets through.
   */
  datatype Step =
    | Hand(amount: int)
    | CommitOne(tx: string, who: int, op: string)
    | SelectAgain(tx: string)
    | Foreign(tx: string, other: int)

  ghost predicate ViewStep(t: Table, t': Table, h: Sets, h': Sets, step: Step, view: int) {
    match step
    case Hand(amount) =>
      (t' == t && h' == h && Chosen(t, view, amount, Err(NoneAvailable))) ||
      (exists txs :: Chosen(t, view, amount, Ok(txs)) && Choice(t, view, txs) && t' == AllPreSelected(t, txs, view) && h' == h + [txs])
    case CommitOne(tx, who, op) =>
      h' == h && t' == if tx in t then t[tx := t[tx].(PBFTStatus := Commit, View := who, PBFTReason := op)] else t
    case SelectAgain(tx) =>
      h' == h && t' == if tx in t && Available(t[tx], view) then PreSelected(t, tx, view) else t
    case Foreign(tx, other) =>
      h' == h && t' == if other != view && tx in t && Available(t[tx], other) then PreSelected(t, tx, other) else t
  }

  /** The table and the handed sets along a sequence of steps. */
  ghost predicate Steps(tables: seq<Table>, steps: seq<Step>, handed: seq<Sets>, view: int) {
    && |tables| == |handed| == |steps| + 1
    && forall n :: 0 <= n < |steps| ==> ViewStep(tables[n], tables[n + 1], handed[n], handed[n + 1], steps[n], view)
  }

  /** A run of one primary's view starts with nothing handed out, on any table. */
  ghost predicate ViewRun(tables: seq<Table>, steps: seq<Step>, handed: seq<Sets>, view: int) {
    Steps(tables, steps, handed, view) && handed[0] == []
  }

  ghost predicate Disjoint(handed: Sets) {
    forall i, j, x :: 0 <= i < j < |handed| && x in handed[i] ==> x !in handed[j]
  }

  ghost predicate HandedOut(handed: Sets, x: string) {
    exists i :: 0 <= i < |handed| && x in handed[i]
  }

  /** Everything handed out so far: no outpoint twice, and none of it free for this primary any more. */
  ghost predicate Exclusive(t: Table, view: int, handed: Sets) {
    Disjoint(handed) && forall x :: HandedOut(handed, x) ==> x in t && !Available(t[x], view)
  }

  /** A hand-out, of whatever the selection returned, keeps the sets disjoint and free of committed outpoints. */
  lemma HandKeeps(t: Table, view: int, handed: Sets, txs: seq<string>)
    requires Exclusive(t, view, handed) && Choice(t, view, txs)
    ensures Exclusive(AllPreSelected(t, txs, view), view, handed + [txs])
    ensures forall k :: 0 <= k < |txs| ==> t[txs[k]].PBFTStatus != Commit
  {
    MarkedEntries(t, txs, view);
    var all := handed + [txs];
    forall i, j, x | 0 <= i < j < |all| && x in all[i]
      ensures x !in all[j]
    {
      if j == |handed| { assert HandedOut(handed, x); }
    }
    forall x | HandedOut(all, x)
      ensures var now := AllPreSelected(t, txs, view); x in now && !Available(now[x], view)
    {
      if x !in txs {
        var i :| 0 <= i < |all| && x in all[i];
        assert x in handed[i];
        assert HandedOut(handed, x);
      }
    }
  }

  /** Handed out, pre-selected for this primary, and not committed yet. */
  ghost predicate LiveHanded(t: Table, view: int, handed: Sets, tx: string) {
    HandedOut(handed, tx) && tx in t && t[tx].PBFTStatus == PreSelect && t[tx].View == view
  }

  /** Another primary's pre-selection of something handed out and not committed. */
  ghost predicate Harmful(t: Table, view: int, handed: Sets, step: Step) {
    step.Foreign? && step.other != view && LiveHanded(t, view, handed, step.tx)
  }

  /** One step keeps the handed sets exclusive exactly when it is not a harmful foreign pre-selection. */
  lemma OtherPrimaryFrees(t: Table, t': Table, h: Sets, h': Sets, step: Step, view: int)
    requires Exclusive(t, view, h) && ViewStep(t, t', h, h', step, view)
    ensures Exclusive(t', view, h') <==> !Harmful(t, view, h, step)
  {
    match step
    case Hand(amount) =>
      if !(t' == t && h' == h) {
        var txs :| Choice(t, view, txs) && t' == AllPreSelected(t, txs, view) && h' == h + [txs];
        HandKeeps(t, view, h, txs);
      }
    case CommitOne(tx, who, op) =>
    case SelectAgain(tx) =>
    case Foreign(tx, other) =>
  }

  /** What is free for this primary can be chosen for an operation of exactly its amount. */
  lemma FreeIsChosen(t: Table, view: int, x: string)
    requires x in t && Available(t[x], view)
    ensures Chosen(t, view, t[x].Amount, Ok([x])) && Choice(t, view, [x])
  {
    assert Selected(t, view, t[x].Amount, Ok(x), [], Ok([x]));
  }

  ghost predicate OwnSteps(steps: seq<Step>) {
    forall k :: 0 <= k < |steps| ==> !steps[k].Foreign?
  }

  /** No sequence of this primary's own steps from here hands an outpoint out twice. */
  ghost predicate SafeFrom(t: Table, view: int, handed: Sets) {
    forall tables: seq<Table>, steps: seq<Step>, sets: seq<Sets> ::
      Steps(tables, steps, sets, view) && tables[0] == t && sets[0] == handed && OwnSteps(steps)
      ==> Disjoint(sets[|steps|])
  }

  lemma {:induction false} OwnStepsKeep(tables: seq<Table>, steps: seq<Step>, sets: seq<Sets>, view: int)
    requires Steps(tables, steps, sets, view) && Exclusive(tables[0], view, sets[0])
    requires forall n :: 0 <= n < |steps| ==> !Harmful(tables[n], view, sets[n], steps[n])
    ensures Exclusive(tables[|steps|], view, sets[|steps|])
  {
    if steps != [] {
      var n := |steps| - 1;
      OwnStepsKeep(tables[..n + 1], steps[..n], sets[..n + 1], view);
      OtherPrimaryFrees(tables[n], tables[n + 1], sets[n], sets[n + 1], steps[n], view);
    }
  }

  lemma ExclusiveSafe(t: Table, view: int, handed: Sets)
    requires Exclusive(t, view, handed)
    ensures SafeFrom(t, view, handed)
  {
    forall tables: seq<Table>, steps: seq<Step>, sets: seq<Sets> |
      Steps(tables, steps, sets, view) && tables[0] == t && sets[0] == handed && OwnSteps(steps)
      ensures Disjoint(sets[|steps|])
    {
      OwnStepsKeep(tables, steps, sets, view);
    }
  }

  /** A handed-out outpoint that is free again can be handed out again at once. */
  lemma FreedUnsafe(t: Table, view: int, handed: Sets, x: string)
    requires HandedOut(handed, x) && x in t && Available(t[x], view)
    ensures !SafeFrom(t, view, handed)
  {
    FreeIsChosen(t, view, x);
    var tables, steps, sets := [t, AllPreSelected(t, [x], view)], [Hand(t[x].Amount)], [handed, handed + [[x]]];
    assert ViewStep(tables[0], tables[1], sets[0], sets[1], steps[0], view);
    assert Steps(tables, steps, sets, view);
    var i :| 0 <= i < |handed| && x in handed[i];
    assert x in sets[1][i] && x in sets[1][|handed|];
    assert !Disjoint(sets[|steps|]);
  }

  ghost predicate SafeThroughout(tables: seq<Table>, handed: seq<Sets>, view: int)
    requires |tables| == |handed|
  {
    forall m :: 0 <= m < |tables| ==> Disjoint(handed[m]) && SafeFrom(tables[m], view, handed[m])
  }

  lemma PrefixExclusive(tables: seq<Table>, steps: seq<Step>, handed: seq<Sets>, view: int, m: nat)
    requires ViewRun(tables, steps, handed, view) && m <= |steps|
    requires forall n :: 0 <= n < m ==> !Harmful(tables[n], view, handed[n], steps[n])
    ensures Exclusive(tables[m], view, handed[m])
  {
    OwnStepsKeep(tables[..m + 1], steps[..m], handed[..m + 1], view);
  }

  /**
   Over every run of one primary's view: the sets handed to different operations are disjoint, and
   stay so whatever the primary does next, at every point of the run, exactly when no step of the run
   is another primary's pre-selection of an outpoint that is handed out and not committed.
   */
  lemma HandedDisjoint(tables: seq<Table>, steps: seq<Step>, handed: seq<Sets>, view: int)
    requires ViewRun(tables, steps, handed, view)
    ensures (SafeThroughout(tables, handed, view) <==>
             forall n :: 0 <= n < |steps| ==> !Harmful(tables[n], view, handed[n], steps[n]))
  {
    hide SafeFrom, ViewStep;
    if forall n :: 0 <= n < |steps| ==> !Harmful(tables[n], view, handed[n], steps[n]) {
      forall m | 0 <= m < |tables|
        ensures Disjoint(handed[m]) && SafeFrom(tables[m], view, handed[m])
      {
        PrefixExclusive(tables, steps, handed, view, m);
        ExclusiveSafe(tables[m], view, handed[m]);
      }
    } else {
      var n :| 0 <= n < |steps| && Harmful(tables[n], view, handed[n], steps[n]);
      HarmFrees(tables[n], tables[n + 1], handed[n], handed[n + 1], steps[n], view);
      assert !SafeFrom(tables[n + 1], view, handed[n + 1]);
    }
  }

  lemma HarmFrees(t: Table, t': Table, h: Sets, h': Sets, step: Step, view: int)
    requires ViewStep(t, t', h, h', step, view) && Harmful(t, view, h, step)
    ensures !SafeFrom(t', view, h')
  {
    hide SafeFrom;
    FreedUnsafe(t', view, h', step.tx);
  }

  /**
   Such a run exists for every unused outpoint and every other primary: the outpoint is handed out,
   pre-selected for the other primary, and handed out to a second operation.
   */
  lemma HandedTwice(t: Table, view: int, other: int, x: string)
    requires x in t && t[x].PBFTStatus == NotUsed && other != view
    ensures exists tables, handed ::
              var steps := [Hand(t[x].Amount), Foreign(x, other), Hand(t[x].Amount)];
              ViewRun(tables, steps, handed, view) && tables[0] == t && handed[3] == [[x], [x]]
  {
    var amount, h1, h3: Sets := t[x].Amount, [[x]], [[x], [x]];
    var t1 := HandOne(t, view, [], x);
    var t2 := PreSelected(t1, x, other);
    assert ViewStep(t1, t2, h1, h1, Foreign(x, other), view);
    var t3 := HandOne(t2, view, h1, x);
    assert [] + [[x]] == h1 && h1 + [[x]] == h3;
    hide ViewStep;
    var tables: seq<Table>, handed: seq<Sets> := [t, t1, t2, t3], [[], h1, h1, h3];
    var steps := [Hand(amount), Foreign(x, other), Hand(amount)];
    assert Steps(tables, steps, handed, view);
    assert ViewRun(tables, steps, handed, view) && tables[0] == t && handed[3] == [[x], [x]];
  }

  /** Hands out one free outpoint. */
  lemma HandOne(t: Table, view: int, h: Sets, x: string) returns (t': Table)
    requires x in t && Available(t[x], view)
    ensures ViewStep(t, t', h, h + [[x]], Hand(t[x].Amount), view)
    ensures x in t' && t'[x] == t[x].(PBFTStatus := PreSelect, View := view)
  {
    FreeIsChosen(t, view, x);
    MarkedEntries(t, [x], view);
    t' := AllPreSelected(t, [x], view);
    hide Chosen, Choice, AllPreSelected;
  }

  // ---------- the auxiliary string ----------

  /** The digest and the outpoints, joined by dashes; the buffer's last dash is dropped. */
  function Joined(digest: string, txs: seq<string>): string {
    if txs == [] then digest else Joined(digest, txs[..|txs| - 1]) + "-" + txs[|txs| - 1]
  }

  function Split(s: string): (r: seq<string>)
    ensures r != []
  {
    if s == [] then [""]
    else
      var rest := Split(s[1..]);
      if s[0] == '-' then [""] + rest else [[s[0]] + rest[0]] + rest[1..]
  }

  ghost predicate NoDash(s: string) {
    '-' !in s
  }

  lemma {:induction false} SplitPlain(s: string)
    requires NoDash(s)
    ensures Split(s) == [s]
  {
    if s != [] {
      SplitPlain(s[1..]);
      assert s == [s[0]] + s[1..];
    }
  }

  lemma {:induction false} SplitAppend(s: string, x: string)
    requires NoDash(x)
    ensures Split(s + "-" + x) == Split(s) + [x]
  {
    if s == [] {
      assert s + "-" + x == "-" + x;
      assert ("-" + x)[1..] == x;
      SplitPlain(x);
    } else {
      var w := s + "-" + x;
      assert w[0] == s[0] && w[1..] == s[1..] + "-" + x;
      SplitAppend(s[1..], x);
    }
  }

  /** Backups read back exactly the outpoints the primary wrote. */
  lemma {:induction false} AuxiliaryRoundTrip(digest: string, txs: seq<string>)
    requires NoDash(digest) && forall k :: 0 <= k < |txs| ==> NoDash(txs[k])
    ensures Split(Joined(digest, txs)) == [digest] + txs
  {
    if txs == [] {
      SplitPlain(digest);
    } else {
      var m := |txs| - 1;
      AuxiliaryRoundTrip(digest, txs[..m]);
      SplitAppend(Joined(digest, txs[..m]), txs[m]);
      assert [digest] + txs == ([digest] + txs[..m]) + [txs[m]];
    }
  }
}
