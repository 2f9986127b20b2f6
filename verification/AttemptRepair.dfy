/** Migration 0041: renumber every submission and close stale open sittings,
    from any table content, before the database enforces both rules. */
module AttemptRepair {
  import opened AttemptTables

  /** A `submissions` row as the migration sees it; `id` is the primary key. */
  datatype Row = Row(id: nat, key: Key, created: int, no: int)

  /** ORDER BY created_at, id */
  predicate NotAfter(a: Row, b: Row) {
    a.created < b.created || (a.created == b.created && a.id <= b.id)
  }

  ghost predicate UniqueIds(rows: seq<Row>) {
    forall i, j :: 0 <= i < j < |rows| ==> rows[i].id != rows[j].id
  }

  /** The rows of the partition of row i that sort no later than it. */
  function Before(rows: seq<Row>, i: nat): (s: set<nat>)
    requires i < |rows|
    ensures forall j :: j in s <==> 0 <= j < |rows| && rows[j].key == rows[i].key && NotAfter(rows[j], rows[i])
  {
    set j: nat | j < |rows| && rows[j].key == rows[i].key && NotAfter(rows[j], rows[i])
  }

  /** row_number() OVER (PARTITION BY ... ORDER BY created_at, id) */
  function RowNumber(rows: seq<Row>, i: nat): nat
    requires i < |rows|
  {
    |Before(rows, i)|
  }

  function Renumber(rows: seq<Row>): seq<Row> {
    seq(|rows|, i requires 0 <= i < |rows| => rows[i].(no := RowNumber(rows, i)))
  }

  /** The columns the attempt policy reads. */
  function Submissions(rows: seq<Row>): (s: seq<Submission>)
    ensures |s| == |rows| && forall i :: 0 <= i < |rows| ==> s[i] == Submission(rows[i].key, rows[i].no)
  {
    seq(|rows|, i requires 0 <= i < |rows| => Submission(rows[i].key, rows[i].no))
  }

  ghost function Partition(rows: seq<Submission>, key: Key): (s: set<nat>)
    ensures forall j :: j in s <==> 0 <= j < |rows| && rows[j].key == key
  {
    set j: nat | j < |rows| && rows[j].key == key
  }

  lemma {:induction false} PartitionSize(rows: seq<Submission>, key: Key)
    ensures |Partition(rows, key)| == Used(rows, key)
  {
    if rows != [] {
      var n := |rows| - 1;
      PartitionSize(rows[..n], key);
      if rows[n].key == key {
        assert Partition(rows, key) == Partition(rows[..n], key) + {n};
      } else {
        assert Partition(rows, key) == Partition(rows[..n], key);
      }
    }
  }

  lemma SmallerSet(a: set<nat>, b: set<nat>)
    requires a <= b
    ensures |a| <= |b|
    ensures a != b ==> |a| < |b|
  {
    assert b == a + (b - a);
    if a != b {
      assert b - a != {};
    }
  }

  /** Within one learner and activity the new numbers follow creation order. */
  lemma RowNumberFollowsCreation(rows: seq<Row>, i: nat, j: nat)
    requires UniqueIds(rows) && i < |rows| && j < |rows| && i != j && rows[i].key == rows[j].key
    ensures RowNumber(rows, i) < RowNumber(rows, j) <==> NotAfter(rows[i], rows[j])
    ensures RowNumber(rows, i) != RowNumber(rows, j)
  {
    if NotAfter(rows[i], rows[j]) {
      assert j !in Before(rows, i);
      SmallerSet(Before(rows, i), Before(rows, j));
    } else {
      assert i !in Before(rows, j);
      SmallerSet(Before(rows, j), Before(rows, i));
    }
  }

  lemma RowNumberRange(rows: seq<Row>, i: nat)
    requires i < |rows|
    ensures 1 <= RowNumber(rows, i) <= Used(Submissions(rows), rows[i].key)
  {
    var all := Partition(Submissions(rows), rows[i].key);
    PartitionSize(Submissions(rows), rows[i].key);
    SmallerSet(Before(rows, i), all);
    SmallerSet({i}, Before(rows, i));
  }

  lemma {:induction false} SameKeysSameUse(a: seq<Submission>, b: seq<Submission>, key: Key)
    requires |a| == |b| && forall i :: 0 <= i < |a| ==> a[i].key == b[i].key
    ensures Used(a, key) == Used(b, key)
  {
    PartitionSize(a, key);
    PartitionSize(b, key);
    assert Partition(a, key) == Partition(b, key);
  }

  lemma {:induction false} MaxNoBounds(rows: seq<Submission>, key: Key, bound: nat)
    requires forall i :: 0 <= i < |rows| && rows[i].key == key ==> rows[i].no <= bound
    ensures 0 <= MaxNo(rows, key) <= bound
    ensures forall i :: 0 <= i < |rows| && rows[i].key == key ==> rows[i].no <= MaxNo(rows, key)
  {
    if rows != [] {
      var n := |rows| - 1;
      MaxNoBounds(rows[..n], key, bound);
      forall i | 0 <= i < |rows| && rows[i].key == key ensures rows[i].no <= MaxNo(rows, key) {
        assert i < n ==> rows[..n][i] == rows[i];
      }
    }
  }

  lemma DenseNumbering(subs: seq<Submission>, key: Key)
    requires forall i :: 0 <= i < |subs| && subs[i].key == key ==> 1 <= subs[i].no <= Used(subs, key)
    requires forall i, j :: 0 <= i < j < |subs| && subs[i].key == key && subs[j].key == key ==> subs[i].no != subs[j].no
    ensures Numbered(subs, key)
  {
    var used := Used(subs, key);
    NosForSize(subs, key);
    SubsetOfSameSize(NosFor(subs, key), UpTo(used));
    MaxNoBounds(subs, key, used);
    if used > 0 {
      assert used in NosFor(subs, key);
    }
  }

  /** From any table, for every learner and activity: the renumbered attempts are
      distinct and contiguous from 1, so the attempt writers start from a
      numbered table. */
  lemma RenumberEstablishesNumbering(rows: seq<Row>, key: Key)
    requires UniqueIds(rows)
    ensures Numbered(Submissions(Renumber(rows)), key)
    ensures NosFor(Submissions(Renumber(rows)), key) == UpTo(Used(Submissions(rows), key))
  {
    var subs := Submissions(Renumber(rows));
    SameKeysSameUse(Submissions(rows), subs, key);
    forall i | 0 <= i < |subs| && subs[i].key == key ensures 1 <= subs[i].no <= Used(subs, key) {
      RowNumberRange(rows, i);
    }
    forall i, j | 0 <= i < j < |subs| && subs[i].key == key && subs[j].key == key
      ensures subs[i].no != subs[j].no
    {
      RowNumberFollowsCreation(rows, i, j);
    }
    DenseNumbering(subs, key);
    ExactlyOneToUsed(subs, key);
  }

  /** Numbers follow creation order, and no other column changes. */
  lemma RenumberFollowsCreation(rows: seq<Row>)
    requires UniqueIds(rows)
    ensures |Renumber(rows)| == |rows|
    ensures forall i, j :: 0 <= i < |rows| && 0 <= j < |rows| && rows[i].key == rows[j].key && i != j ==>
              (Renumber(rows)[i].no < Renumber(rows)[j].no <==> NotAfter(rows[i], rows[j]))
    ensures forall i :: 0 <= i < |rows| ==> Renumber(rows)[i].(no := rows[i].no) == rows[i]
  {
    forall i, j | 0 <= i < |rows| && 0 <= j < |rows| && rows[i].key == rows[j].key && i != j
      ensures Renumber(rows)[i].no < Renumber(rows)[j].no <==> NotAfter(rows[i], rows[j])
    {
      RowNumberFollowsCreation(rows, i, j);
    }
  }

  // ---- Stale open sittings ----

  datatype SittingRow = SittingRow(id: nat, key: Key, started: int, open: bool)

  /** ORDER BY started_at DESC, id DESC */
  predicate Newer(a: SittingRow, b: SittingRow) {
    a.started > b.started || (a.started == b.started && a.id > b.id)
  }

  function OpenNewer(rows: seq<SittingRow>, i: nat): set<nat>
    requires i < |rows|
  {
    set j: nat | j < |rows| && rows[j].open && rows[j].key == rows[i].key && Newer(rows[j], rows[i])
  }

  /** Closes every open row whose row_number is above 1. */
  function CloseStale(rows: seq<SittingRow>): seq<SittingRow> {
    seq(|rows|, i requires 0 <= i < |rows| =>
      if rows[i].open && |OpenNewer(rows, i)| + 1 > 1 then rows[i].(open := false) else rows[i])
  }

  lemma {:induction false} NewestOpen(rows: seq<SittingRow>, key: Key, n: nat) returns (best: nat)
    requires n <= |rows| && exists i :: 0 <= i < n && rows[i].key == key && rows[i].open
    requires forall i, j :: 0 <= i < j < |rows| ==> rows[i].id != rows[j].id
    ensures best < n && rows[best].key == key && rows[best].open
    ensures forall i :: 0 <= i < n && rows[i].key == key && rows[i].open ==> !Newer(rows[i], rows[best])
    decreases n
  {
    if exists i :: 0 <= i < n - 1 && rows[i].key == key && rows[i].open {
      best := NewestOpen(rows, key, n - 1);
      if rows[n - 1].key == key && rows[n - 1].open && Newer(rows[n - 1], rows[best]) {
        best := n - 1;
      }
    } else {
      best := n - 1;
    }
  }

  /** No open sitting of the same learner and activity is newer. */
  predicate NoneNewer(rows: seq<SittingRow>, i: nat)
    requires i < |rows|
  {
    forall j :: 0 <= j < |rows| && rows[j].open && rows[j].key == rows[i].key ==> !Newer(rows[j], rows[i])
  }

  /** Each learner keeps, per activity, exactly the newest of the sittings that
      were open; sittings already closed stay closed. */
  lemma CloseStaleKeepsNewest(rows: seq<SittingRow>, key: Key)
    requires forall i, j :: 0 <= i < j < |rows| ==> rows[i].id != rows[j].id
    ensures forall i :: 0 <= i < |rows| ==>
              (CloseStale(rows)[i].open <==> rows[i].open && NoneNewer(rows, i))
    ensures forall i, j :: 0 <= i < j < |rows| && CloseStale(rows)[i].open && CloseStale(rows)[j].open ==>
              CloseStale(rows)[i].key != CloseStale(rows)[j].key
    ensures (exists i :: 0 <= i < |rows| && rows[i].key == key && rows[i].open) ==>
              exists i :: 0 <= i < |rows| && CloseStale(rows)[i].key == key && CloseStale(rows)[i].open
  {
    forall i | 0 <= i < |rows|
      ensures CloseStale(rows)[i].open <==> rows[i].open && NoneNewer(rows, i)
    {
      if j :| 0 <= j < |rows| && rows[j].open && rows[j].key == rows[i].key && Newer(rows[j], rows[i]) {
        assert j in OpenNewer(rows, i);
        SmallerSet({}, OpenNewer(rows, i));
      } else {
        assert OpenNewer(rows, i) == {};
      }
    }
    if exists i :: 0 <= i < |rows| && rows[i].key == key && rows[i].open {
      var best := NewestOpen(rows, key, |rows|);
      assert CloseStale(rows)[best].open;
    }
  }
}
