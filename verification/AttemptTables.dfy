/** The tables behind attempts: `submissions`, `attempt_grants` and
    `activity_attempts`, and the aggregate queries the services run on them. */
module AttemptTables {
  import opened Options

  type Id = nat

  /** One learner on one activity. */
  datatype Key = Key(person: Id, activity: Id)

  datatype Submission = Submission(key: Key, no: int)
  datatype Grant = Grant(key: Key, extra: nat)
  datatype Sitting = Sitting(key: Key, variant: nat, questions: seq<string>, open: bool)

  // ---- Aggregates: count(*), max(attempt_no), sum(extra_attempts) ----

  function Used(rows: seq<Submission>, key: Key): nat {
    if rows == [] then 0
    else Used(rows[..|rows| - 1], key) + if rows[|rows| - 1].key == key then 1 else 0
  }

  function MaxNo(rows: seq<Submission>, key: Key): int {
    if rows == [] then 0
    else
      var before := MaxNo(rows[..|rows| - 1], key);
      var last := rows[|rows| - 1];
      if last.key == key && last.no > before then last.no else before
  }

  function Granted(rows: seq<Grant>, key: Key): nat {
    if rows == [] then 0
    else Granted(rows[..|rows| - 1], key) + if rows[|rows| - 1].key == key then rows[|rows| - 1].extra else 0
  }

  function Prior(rows: seq<Sitting>, key: Key): nat {
    if rows == [] then 0
    else Prior(rows[..|rows| - 1], key) + if rows[|rows| - 1].key == key then 1 else 0
  }

  /** `_open_attempt`: the index of the learner's open sitting, if any. */
  function OpenSitting(rows: seq<Sitting>, key: Key): (r: Option<nat>)
    ensures r.Some? ==> r.value < |rows| && rows[r.value].key == key && rows[r.value].open
    ensures r.None? ==> forall i :: 0 <= i < |rows| && rows[i].key == key ==> !rows[i].open
  {
    if rows == [] then None
    else if rows[|rows| - 1].key == key && rows[|rows| - 1].open then Some(|rows| - 1)
    else OpenSitting(rows[..|rows| - 1], key)
  }

  lemma UsedAppend(rows: seq<Submission>, x: Submission, key: Key)
    ensures Used(rows + [x], key) == Used(rows, key) + if x.key == key then 1 else 0
    ensures MaxNo(rows + [x], key) == if x.key == key && x.no > MaxNo(rows, key) then x.no else MaxNo(rows, key)
  {
    assert (rows + [x])[..|rows|] == rows;
  }

  lemma GrantedAppend(rows: seq<Grant>, x: Grant, key: Key)
    ensures Granted(rows + [x], key) == Granted(rows, key) + if x.key == key then x.extra else 0
  {
    assert (rows + [x])[..|rows|] == rows;
  }

  lemma PriorAppend(rows: seq<Sitting>, x: Sitting, key: Key)
    ensures Prior(rows + [x], key) == Prior(rows, key) + if x.key == key then 1 else 0
  {
    assert (rows + [x])[..|rows|] == rows;
  }

  /** Closing a sitting changes no count. */
  lemma {:induction false} PriorUpdate(rows: seq<Sitting>, at: nat, x: Sitting, key: Key)
    requires at < |rows| && rows[at].key == x.key
    ensures Prior(rows[at := x], key) == Prior(rows, key)
  {
    var last := |rows| - 1;
    if at == last {
      assert rows[at := x][..last] == rows[..last];
    } else {
      assert rows[at := x][..last] == rows[..last][at := x];
      PriorUpdate(rows[..last], at, x, key);
    }
  }

  // ---- Attempt numbering ----

  /** The learner's attempt numbers on the activity are exactly 1..used. */
  ghost predicate Numbered(rows: seq<Submission>, key: Key) {
    && MaxNo(rows, key) == Used(rows, key)
    && (forall i :: 0 <= i < |rows| && rows[i].key == key ==> 1 <= rows[i].no <= Used(rows, key))
    && (forall i, j :: 0 <= i < j < |rows| && rows[i].key == key && rows[j].key == key ==> rows[i].no != rows[j].no)
  }

  ghost function NosFor(rows: seq<Submission>, key: Key): set<int> {
    set i | 0 <= i < |rows| && rows[i].key == key :: rows[i].no
  }

  lemma NosForLast(rows: seq<Submission>, key: Key)
    requires rows != []
    ensures var n := |rows| - 1;
            NosFor(rows, key) == NosFor(rows[..n], key) + if rows[n].key == key then {rows[n].no} else {}
  {
    var n := |rows| - 1;
    assert forall i :: 0 <= i < n ==> rows[..n][i] == rows[i];
    forall k ensures k in NosFor(rows, key) <==>
                     k in NosFor(rows[..n], key) || (rows[n].key == key && k == rows[n].no) {
      if k in NosFor(rows[..n], key) {
        var i :| 0 <= i < n && rows[..n][i].key == key && rows[..n][i].no == k;
        assert rows[i].no == k;
      }
    }
  }

  lemma {:induction false} NosForSize(rows: seq<Submission>, key: Key)
    requires forall i, j :: 0 <= i < j < |rows| && rows[i].key == key && rows[j].key == key ==> rows[i].no != rows[j].no
    ensures |NosFor(rows, key)| == Used(rows, key)
  {
    if rows != [] {
      var n := |rows| - 1;
      NosForSize(rows[..n], key);
      NosForLast(rows, key);
      assert rows[n].key == key ==> rows[n].no !in NosFor(rows[..n], key);
    }
  }

  function UpTo(n: nat): (s: set<int>)
    ensures forall k :: k in s <==> 1 <= k <= n
    ensures |s| == n
  {
    if n == 0 then {} else UpTo(n - 1) + {n}
  }

  lemma SubsetOfSameSize(a: set<int>, b: set<int>)
    requires a <= b && |a| == |b|
    ensures a == b
  {
    assert |b - a| == |b| - |a|;
  }

  /** The set of recorded numbers is {1, ..., used}: none missing, none twice. */
  lemma {:induction false} ExactlyOneToUsed(rows: seq<Submission>, key: Key)
    requires Numbered(rows, key)
    ensures NosFor(rows, key) == UpTo(Used(rows, key))
  {
    NosForSize(rows, key);
    SubsetOfSameSize(NosFor(rows, key), UpTo(Used(rows, key)));
  }

  lemma {:induction false} NumberedAppend(rows: seq<Submission>, x: Submission, key: Key)
    requires Numbered(rows, key)
    requires x.key == key ==> x.no == Used(rows, key) + 1
    ensures Numbered(rows + [x], key)
  {
    UsedAppend(rows, x, key);
  }
}
