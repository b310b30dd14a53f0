/** The transfer history: rows are pruned to the newest 200 after every insertion. */
module History {

  const MAX_HISTORY_ROWS: nat := 200

  datatype Record = Record(direction: string, peerName: string, peerId: string, fileCount: nat, totalBytes: nat,
                           status: string, filePaths: seq<string>)

  datatype Row = Row(id: nat, ts: int, record: Record)

  /** The order in which rows are listed: by time, then by id, the newest first. */
  predicate Newer(a: Row, b: Row) {
    a.ts > b.ts || (a.ts == b.ts && a.id > b.id)
  }

  predicate NewestFirst(rows: seq<Row>) {
    forall i, j :: 0 <= i < j < |rows| ==> Newer(rows[i], rows[j])
  }

  function Place(sorted: seq<Row>, r: Row): (s: seq<Row>)
    ensures |s| == |sorted| + 1
  {
    if sorted == [] then [r]
    else if Newer(r, sorted[0]) then [r] + sorted
    else [sorted[0]] + Place(sorted[1..], r)
  }

  /** The rows as a query lists them. */
  function InOrder(rows: seq<Row>): (s: seq<Row>)
    ensures |s| == |rows|
  {
    if rows == [] then [] else Place(InOrder(rows[..|rows| - 1]), rows[|rows| - 1])
  }

  function First(rows: seq<Row>, n: nat): seq<Row> {
    if n < |rows| then rows[..n] else rows
  }

  predicate DistinctIds(rows: seq<Row>) {
    forall i, j :: 0 <= i < j < |rows| ==> rows[i].id != rows[j].id
  }

  // ----- Rows kept -----

  function Keep(rows: seq<Row>, ids: set<nat>): (kept: seq<Row>)
    ensures forall r :: r in kept <==> r in rows && r.id in ids
  {
    if rows == [] then []
    else
      var last := rows[|rows| - 1];
      Keep(rows[..|rows| - 1], ids) + if last.id in ids then [last] else []
  }

  function Ids(rows: seq<Row>): set<nat> {
    set r <- rows :: r.id
  }

  ghost predicate Pruned(rows: seq<Row>, log: seq<Row>, nextId: nat) {
    && DistinctIds(rows) && DistinctIds(log)
    && (forall r <- rows :: r.id < nextId) && (forall r <- log :: r.id < nextId)
    && InOrder(rows) == First(InOrder(log), MAX_HISTORY_ROWS)
  }

  // ----- Sorting -----

  lemma {:induction false} PlaceRows(sorted: seq<Row>, r: Row, q: Row)
    ensures q in Place(sorted, r) <==> q in sorted || q == r
  {
    if sorted != [] {
      PlaceRows(sorted[1..], r, q);
      assert q in sorted <==> q == sorted[0] || q in sorted[1..];
    }
  }

  lemma {:induction false} PlaceKeepsOrder(sorted: seq<Row>, r: Row)
    requires NewestFirst(sorted) && forall q <- sorted :: q.id != r.id
    ensures NewestFirst(Place(sorted, r))
  {
    if sorted != [] && !Newer(r, sorted[0]) {
      var head, tail := sorted[0], sorted[1..];
      PlaceKeepsOrder(tail, r);
      forall q <- Place(tail, r) ensures Newer(head, q) {
        PlaceRows(tail, r, q);
        if q != r {
          assert q in tail;
        } else {
          assert head in sorted;
        }
      }
    }
  }

  lemma {:induction false} SameRows(rows: seq<Row>, r: Row)
    ensures r in InOrder(rows) <==> r in rows
  {
    if rows != [] {
      var before, last := rows[..|rows| - 1], rows[|rows| - 1];
      SameRows(before, r);
      PlaceRows(InOrder(before), last, r);
      assert r in rows <==> r in before || r == last;
    }
  }

  lemma {:induction false} OrderedIsNewestFirst(rows: seq<Row>)
    requires DistinctIds(rows)
    ensures NewestFirst(InOrder(rows))
  {
    if rows != [] {
      var before, last := rows[..|rows| - 1], rows[|rows| - 1];
      OrderedIsNewestFirst(before);
      forall q <- InOrder(before) ensures q.id != last.id {
        SameRows(before, q);
      }
      PlaceKeepsOrder(InOrder(before), last);
    }
  }

  /** Two lists in order with the same rows are the same list. */
  lemma {:induction false} OrderIsUnique(a: seq<Row>, b: seq<Row>)
    requires NewestFirst(a) && NewestFirst(b) && forall r :: r in a <==> r in b
    ensures a == b
  {
    assert a != [] ==> a[0] in a;
    assert b != [] ==> b[0] in b;
    if a != [] {
      assert a[0] in b && b[0] in a;
      assert a[0] == b[0];
      forall r ensures r in a[1..] <==> r in b[1..] {
        assert r in a <==> r == a[0] || r in a[1..];
        assert r in b <==> r == b[0] || r in b[1..];
        assert a[0] !in a[1..] && b[0] !in b[1..];
      }
      OrderIsUnique(a[1..], b[1..]);
      assert a == [a[0]] + a[1..] && b == [b[0]] + b[1..];
    }
  }

  // ----- Pruning -----

  lemma FirstCons(head: Row, tail: seq<Row>, n: nat)
    requires n > 0
    ensures First([head] + tail, n) == [head] + First(tail, n - 1)
  {
  }

  /** A row that is placed among the first `n` lands as it would among all. */
  lemma {:induction false} PlaceThenFirst(sorted: seq<Row>, r: Row, n: nat)
    ensures First(Place(First(sorted, n), r), n) == First(Place(sorted, r), n)
  {
    if sorted != [] && n > 0 && !Newer(r, sorted[0]) {
      PlaceThenFirst(sorted[1..], r, n - 1);
      assert First(sorted, n)[0] == sorted[0] && First(sorted, n)[1..] == First(sorted[1..], n - 1);
      FirstCons(sorted[0], Place(sorted[1..], r), n);
      FirstCons(sorted[0], Place(First(sorted[1..], n - 1), r), n);
    } else if sorted != [] && n > 0 {
      assert First(sorted, n)[0] == sorted[0];
    }
  }

  lemma {:induction false} KeepIsDistinct(rows: seq<Row>, ids: set<nat>)
    requires DistinctIds(rows)
    ensures DistinctIds(Keep(rows, ids))
  {
    if rows != [] {
      KeepIsDistinct(rows[..|rows| - 1], ids);
    }
  }

  /** What pruning keeps, listed in order, is the beginning of the list of all rows. */
  lemma KeptInOrder(rows: seq<Row>, n: nat, newest: seq<Row>, kept: seq<Row>)
    requires DistinctIds(rows) && newest == First(InOrder(rows), n) && kept == Keep(rows, Ids(newest))
    ensures DistinctIds(kept) && InOrder(kept) == newest
  {
    OrderedIsNewestFirst(rows);
    KeepIsDistinct(rows, Ids(newest));
    OrderedIsNewestFirst(kept);
    forall r ensures r in InOrder(kept) <==> r in newest {
      SameRows(kept, r);
      SameRows(rows, r);
      if r in kept {
        var q :| q in newest && q.id == r.id;
        SameRows(rows, q);
        assert q == r;
      }
    }
    OrderIsUnique(InOrder(kept), newest);
  }

  /** Pruning after every insertion keeps exactly what pruning the whole log once would keep. */
  lemma PruningKeepsTheNewest(rows: seq<Row>, log: seq<Row>, row: Row, nextId: nat)
    requires Pruned(rows, log, nextId) && row.id == nextId
    ensures var kept := Keep(rows + [row], Ids(First(InOrder(rows + [row]), MAX_HISTORY_ROWS)));
            Pruned(kept, log + [row], nextId + 1)
  {
    var all := rows + [row];
    var newest := First(InOrder(all), MAX_HISTORY_ROWS);
    KeptInOrder(all, MAX_HISTORY_ROWS, newest, Keep(all, Ids(newest)));
    assert all[..|rows|] == rows && (log + [row])[..|log|] == log;
    PlaceThenFirst(InOrder(log), row, MAX_HISTORY_ROWS);
  }

  // ----- The newest rows, counted -----

  function CountNewer(rows: seq<Row>, r: Row): nat {
    if rows == [] then 0 else CountNewer(rows[1..], r) + if Newer(rows[0], r) then 1 else 0
  }

  lemma {:induction false} PlaceCount(sorted: seq<Row>, q: Row, r: Row)
    ensures CountNewer(Place(sorted, q), r) == CountNewer(sorted, r) + if Newer(q, r) then 1 else 0
  {
    if sorted == [] {
      assert CountNewer([q], r) == CountNewer([], r) + if Newer(q, r) then 1 else 0;
    } else if Newer(q, sorted[0]) {
      assert ([q] + sorted)[1..] == sorted;
    } else {
      PlaceCount(sorted[1..], q, r);
      assert ([sorted[0]] + Place(sorted[1..], q))[1..] == Place(sorted[1..], q);
    }
  }

  lemma {:induction false} CountSnoc(rows: seq<Row>, q: Row, r: Row)
    ensures CountNewer(rows + [q], r) == CountNewer(rows, r) + if Newer(q, r) then 1 else 0
  {
    if rows == [] {
      assert CountNewer([q], r) == CountNewer([], r) + if Newer(q, r) then 1 else 0;
    } else {
      assert (rows + [q])[1..] == rows[1..] + [q];
      CountSnoc(rows[1..], q, r);
    }
  }

  lemma {:induction false} OrderedCount(rows: seq<Row>, r: Row)
    ensures CountNewer(InOrder(rows), r) == CountNewer(rows, r)
  {
    if rows != [] {
      var before, last := rows[..|rows| - 1], rows[|rows| - 1];
      OrderedCount(before, r);
      PlaceCount(InOrder(before), last, r);
      CountSnoc(before, last, r);
      assert rows == before + [last];
    }
  }

  lemma {:induction false} NoneNewer(rows: seq<Row>, r: Row)
    requires forall q <- rows :: !Newer(q, r)
    ensures CountNewer(rows, r) == 0
  {
    if rows != [] {
      assert rows[0] in rows;
      NoneNewer(rows[1..], r);
    }
  }

  /** In order, a row's place is the number of rows newer than it. */
  lemma {:induction false} PlaceIsCount(sorted: seq<Row>, k: nat)
    requires NewestFirst(sorted) && k < |sorted|
    ensures CountNewer(sorted, sorted[k]) == k
  {
    if k == 0 {
      NoneNewer(sorted, sorted[0]);
    } else {
      PlaceIsCount(sorted[1..], k - 1);
    }
  }

  lemma AmongTheFirst(sorted: seq<Row>, n: nat, k: nat)
    requires NewestFirst(sorted) && k < |sorted|
    ensures sorted[k] in First(sorted, n) <==> k < n
  {
    assert k < n ==> First(sorted, n)[k] == sorted[k];
    if sorted[k] in First(sorted, n) {
      var j :| 0 <= j < |First(sorted, n)| && sorted[j] == sorted[k];
      assert Newer(sorted[j], sorted[j]) || j == k;
    }
  }

  /** The first `n` in order are exactly the rows with fewer than `n` newer ones. */
  lemma FirstAreTheNewest(log: seq<Row>, n: nat, r: Row)
    requires DistinctIds(log)
    ensures r in First(InOrder(log), n) <==> r in log && CountNewer(log, r) < n
  {
    var sorted := InOrder(log);
    OrderedIsNewestFirst(log);
    OrderedCount(log, r);
    SameRows(log, r);
    if r in sorted {
      var k :| 0 <= k < |sorted| && sorted[k] == r;
      PlaceIsCount(sorted, k);
      AmongTheFirst(sorted, n, k);
    }
  }

  // ----- The table -----

  class HistoryDb {
    var rows: seq<Row>
    var nextId: nat
    ghost var log: seq<Row>

    /** The stored rows are the newest 200 of everything added since the last clear; ids are never used again. */
    ghost predicate Valid()
      reads this
    {
      Pruned(rows, log, nextId)
    }

    constructor ()
      ensures Valid() && log == []
    {
      rows, nextId, log := [], 1, [];
    }

    /** A time that is not positive stands for the current one. */
    method Add(record: Record, ts: int, now: int) returns (id: nat)
      requires Valid()
      modifies this
      ensures Valid() && id == old(nextId)
      ensures log == old(log) + [Row(id, if ts > 0 then ts else now, record)]
    {
      id := nextId;
      var row := Row(id, if ts > 0 then ts else now, record);
      PruningKeepsTheNewest(rows, log, row, nextId);
      rows := rows + [row];
      nextId := nextId + 1;
      var newest := First(InOrder(rows), MAX_HISTORY_ROWS);
      rows := Keep(rows, Ids(newest));
      log := log + [row];
    }

    /** The newest rows of everything added since the last clear, as many as asked for and as are kept. */
    method List(limit: nat) returns (list: seq<Row>)
      requires Valid()
      ensures list == First(InOrder(log), if limit == 0 || limit > MAX_HISTORY_ROWS then MAX_HISTORY_ROWS else limit)
    {
      var fetch := if limit == 0 then MAX_HISTORY_ROWS else limit;
      var selected := First(InOrder(rows), fetch);
      list := [];
      for i := 0 to |selected|
        invariant list == selected[..i]
      {
        list := list + [selected[i]];
      }
    }

    method Clear()
      requires Valid()
      modifies this
      ensures Valid() && log == [] && nextId == old(nextId)
    {
      rows, log := [], [];
    }
  }
}
