/** The largest holders of a token: positive balances, largest first, cut to a limit. */
module TopHolders {
  import opened Numeric
  import opened Sums
  import opened Balances

  datatype Row = Row(holder: string, balance: int)

  /** An enumeration of a map's keys, as its iteration order gives it. */
  ghost predicate Enumerates(order: seq<string>, m: Holders) {
    && (forall i, j :: 0 <= i < j < |order| ==> order[i] != order[j])
    && (forall h :: h in order <==> h in m)
  }

  /** The rows with a positive balance, in iteration order. */
  function PositiveRows(order: seq<string>, m: Holders): (rows: seq<Row>)
    requires forall h :: h in order ==> h in m
  {
    if |order| == 0 then []
    else
      var h := order[|order| - 1];
      PositiveRows(order[..|order| - 1], m) + if m[h].balance > 0 then [Row(h, m[h].balance)] else []
  }

  /** Stable: a row goes behind the rows at least as large. */
  function Insert(r: Row, rows: seq<Row>): seq<Row> {
    if |rows| > 0 && rows[|rows| - 1].balance < r.balance then Insert(r, rows[..|rows| - 1]) + [rows[|rows| - 1]]
    else rows + [r]
  }

  function SortDescending(rows: seq<Row>): seq<Row> {
    if |rows| == 0 then [] else Insert(rows[|rows| - 1], SortDescending(rows[..|rows| - 1]))
  }

  function Top(order: seq<string>, m: Holders, limit: nat): seq<Row>
    requires forall h :: h in order ==> h in m
  {
    var sorted := SortDescending(PositiveRows(order, m));
    sorted[..Min(limit, |sorted|)]
  }

  predicate Descending(rows: seq<Row>) {
    forall i, j :: 0 <= i < j < |rows| ==> rows[i].balance >= rows[j].balance
  }

  lemma {:induction false} InsertKeeps(r: Row, rows: seq<Row>)
    ensures multiset(Insert(r, rows)) == multiset(rows) + multiset{r}
  {
    if |rows| > 0 && rows[|rows| - 1].balance < r.balance {
      InsertKeeps(r, rows[..|rows| - 1]);
      assert rows == rows[..|rows| - 1] + [rows[|rows| - 1]];
    }
  }

  lemma {:induction false} InsertDescends(r: Row, rows: seq<Row>)
    requires Descending(rows)
    ensures Descending(Insert(r, rows))
  {
    if |rows| > 0 && rows[|rows| - 1].balance < r.balance {
      var init, last := rows[..|rows| - 1], rows[|rows| - 1];
      InsertDescends(r, init);
      InsertKeeps(r, init);
      forall x | x in Insert(r, init) ensures x.balance >= last.balance {
        assert x in multiset(Insert(r, init));
        assert x in init || x == r;
      }
    }
  }

  lemma {:induction false} SortMeaning(rows: seq<Row>)
    ensures multiset(SortDescending(rows)) == multiset(rows)
    ensures Descending(SortDescending(rows))
  {
    if |rows| == 0 {
    } else {
      var init, last := rows[..|rows| - 1], rows[|rows| - 1];
      SortMeaning(init);
      InsertKeeps(last, SortDescending(init));
      InsertDescends(last, SortDescending(init));
      assert rows == init + [last];
    }
  }

  predicate IsRowOf(r: Row, m: Holders) {
    r.holder in m && r.balance == m[r.holder].balance > 0
  }

  lemma {:induction false} PositiveRowsIn(order: seq<string>, m: Holders, r: Row)
    requires forall h :: h in order ==> h in m
    ensures r in PositiveRows(order, m) <==> r.holder in order && IsRowOf(r, m)
  {
    if |order| == 0 {
    } else {
      var init := order[..|order| - 1];
      PositiveRowsIn(init, m, r);
      assert order == init + [order[|order| - 1]];
    }
  }

  lemma {:induction false} PositiveRowsOnce(order: seq<string>, m: Holders, r: Row)
    requires forall i, j :: 0 <= i < j < |order| ==> order[i] != order[j]
    requires forall h :: h in order ==> h in m
    ensures multiset(PositiveRows(order, m))[r] <= 1
  {
    if |order| == 0 {
    } else {
      var init, h := order[..|order| - 1], order[|order| - 1];
      PositiveRowsOnce(init, m, r);
      PositiveRowsIn(init, m, r);
      if r.holder == h { assert r !in PositiveRows(init, m); }
    }
  }

  function PositiveAmong(order: seq<string>, m: Holders): set<string>
    requires forall h :: h in order ==> h in m
  {
    set h | h in order && m[h].balance > 0
  }

  lemma AmongStep(init: seq<string>, h: string, m: Holders)
    requires h !in init && h in m && forall x :: x in init ==> x in m
    ensures PositiveAmong(init + [h], m) == PositiveAmong(init, m) + if m[h].balance > 0 then {h} else {}
    ensures |PositiveAmong(init + [h], m)| == |PositiveAmong(init, m)| + if m[h].balance > 0 then 1 else 0
  {
    assert PositiveAmong(init + [h], m) == PositiveAmong(init, m) + if m[h].balance > 0 then {h} else {};
    assert h !in PositiveAmong(init, m);
  }

  lemma {:induction false} PositiveRowsCount(order: seq<string>, m: Holders)
    requires forall i, j :: 0 <= i < j < |order| ==> order[i] != order[j]
    requires forall h :: h in order ==> h in m
    ensures |PositiveRows(order, m)| == |PositiveAmong(order, m)|
  {
    if |order| == 0 {
    } else {
      var init, h := order[..|order| - 1], order[|order| - 1];
      PositiveRowsCount(init, m);
      assert order == init + [h];
      assert h !in init;
      AmongStep(init, h, m);
    }
  }

  lemma TopIsSorted(order: seq<string>, m: Holders) returns (sorted: seq<Row>)
    requires Enumerates(order, m)
    ensures sorted == SortDescending(PositiveRows(order, m)) && Descending(sorted) && |sorted| == |PositiveIn(m)|
    ensures forall r :: r in sorted <==> IsRowOf(r, m)
    ensures forall i, j :: 0 <= i < j < |sorted| ==> sorted[i].holder != sorted[j].holder
  {
    var rows := PositiveRows(order, m);
    sorted := SortDescending(rows);
    SortMeaning(rows);
    PositiveRowsCount(order, m);
    assert PositiveAmong(order, m) == PositiveIn(m);
    assert |sorted| == |multiset(sorted)| == |multiset(rows)| == |rows|;
    forall r ensures r in sorted <==> IsRowOf(r, m) {
      PositiveRowsIn(order, m, r);
      assert r in sorted <==> r in multiset(sorted);
    }
    forall i, j | 0 <= i < j < |sorted| ensures sorted[i].holder != sorted[j].holder {
      if sorted[i].holder == sorted[j].holder {
        assert IsRowOf(sorted[i], m) && IsRowOf(sorted[j], m);
        TwiceIn(sorted, i, j);
        PositiveRowsOnce(order, m, sorted[i]);
      }
    }
  }

  /** At most limit holders, largest first, none twice, and nobody left out holds more. */
  lemma TopMeaning(order: seq<string>, m: Holders, limit: nat)
    requires Enumerates(order, m)
    ensures var top := Top(order, m, limit);
      && |top| == Min(limit, |PositiveIn(m)|) && Descending(top)
      && (forall r :: r in top ==> IsRowOf(r, m))
      && (forall i, j :: 0 <= i < j < |top| ==> top[i].holder != top[j].holder)
      && (forall r, q :: r in top && IsRowOf(q, m) && q !in top ==> q.balance <= r.balance)
  {
    var sorted := TopIsSorted(order, m);
    var top := Top(order, m, limit);
    forall r, q | r in top && IsRowOf(q, m) && q !in top ensures q.balance <= r.balance {
      var i :| 0 <= i < |top| && top[i] == r;
      var j :| 0 <= j < |sorted| && sorted[j] == q;
      assert j >= |top|;
    }
  }

  /** After any stream of operations the list is as long as the holder count allows. */
  lemma TopIsFull(ops: seq<Op>, token: string, order: seq<string>, limit: nat)
    requires Enumerates(order, HoldersOf(Run(ops), token))
    ensures |Top(order, HoldersOf(Run(ops), token), limit)| == Min(limit, HolderCount(Run(ops), token))
  {
    TopMeaning(order, HoldersOf(Run(ops), token), limit);
    HolderCountIsExact(ops, token);
  }
}
