/** Prerequisite graphs: an edge (course, required) means `course` requires
    `required` to be completed first. */
module PrerequisiteGraph {
  type Course = nat
  type Edge = (Course, Course)

  ghost predicate Path(edges: set<Edge>, p: seq<Course>) {
    forall i :: 0 <= i < |p| - 1 ==> (p[i], p[i + 1]) in edges
  }

  ghost predicate Cycle(edges: set<Edge>, p: seq<Course>) {
    |p| >= 2 && Path(edges, p) && p[0] == p[|p| - 1]
  }

  ghost predicate Cyclic(edges: set<Edge>) {
    exists p :: Cycle(edges, p)
  }

  /** Every requirement of a listed course is listed before it. */
  ghost predicate RequirementsFirst(edges: set<Edge>, order: seq<Course>) {
    forall i, e :: 0 <= i < |order| && e in edges && e.0 == order[i] ==> e.1 in order[..i]
  }

  function Position(order: seq<Course>, x: Course): (k: nat)
    requires x in order
    ensures k < |order| && order[k] == x && x !in order[..k]
  {
    if order[0] == x then 0
    else
      assert x in order[1..];
      var k := 1 + Position(order[1..], x);
      assert order[..k] == [order[0]] + order[1..][..k - 1];
      k
  }

  lemma {:induction false} PositionIsLeast(order: seq<Course>, x: Course, j: nat)
    requires j < |order| && order[j] == x
    ensures Position(order, x) <= j
  {
    if order[0] != x {
      PositionIsLeast(order[1..], x, j - 1);
    }
  }

  lemma {:induction false} PathDescends(edges: set<Edge>, order: seq<Course>, p: seq<Course>)
    requires RequirementsFirst(edges, order) && |p| >= 2 && Path(edges, p) && p[0] in order
    ensures p[|p| - 1] in order && Position(order, p[|p| - 1]) < Position(order, p[0])
    decreases |p|
  {
    var k := Position(order, p[0]);
    assert (p[0], p[1]) in edges;
    assert p[1] in order[..k];
    var j :| 0 <= j < k && order[j] == p[1];
    PositionIsLeast(order, p[1], j);
    if |p| > 2 {
      assert Path(edges, p[1..]);
      PathDescends(edges, order, p[1..]);
    }
  }

  /** An order of all the courses that require something, requirements first,
      rules out every cycle. */
  lemma OrderedIsAcyclic(edges: set<Edge>, order: seq<Course>)
    requires RequirementsFirst(edges, order)
    requires forall e :: e in edges ==> e.0 in order
    ensures !Cyclic(edges)
  {
    forall p | Cycle(edges, p) ensures false {
      assert (p[0], p[1]) in edges;
      PathDescends(edges, order, p);
    }
  }

  // ---- An acyclic graph has an unlocking order ----

  function Elems(p: seq<Course>): set<Course> {
    set x | x in p
  }

  lemma {:induction false} DistinctSize(p: seq<Course>)
    requires forall i, j :: 0 <= i < j < |p| ==> p[i] != p[j]
    ensures |Elems(p)| == |p|
  {
    if p != [] {
      var n := |p| - 1;
      DistinctSize(p[..n]);
      assert p == p[..n] + [p[n]];
      assert Elems(p) == Elems(p[..n]) + {p[n]};
    }
  }

  lemma SubsetSize(a: set<Course>, b: set<Course>)
    requires a <= b
    ensures |a| <= |b|
  {
    assert b == a + (b - a);
  }

  ghost predicate Waits(edges: set<Edge>, nodes: set<Course>, n: Course) {
    exists m :: m in nodes && (n, m) in edges
  }

  lemma {:induction false} WalkInside(edges: set<Edge>, nodes: set<Course>, k: nat) returns (p: seq<Course>)
    requires nodes != {}
    requires forall n :: n in nodes ==> Waits(edges, nodes, n)
    ensures |p| == k + 1 && Path(edges, p) && forall i :: 0 <= i < |p| ==> p[i] in nodes
  {
    if k == 0 {
      var n :| n in nodes;
      p := [n];
    } else {
      var q := WalkInside(edges, nodes, k - 1);
      assert Waits(edges, nodes, q[k - 1]);
      var m :| m in nodes && (q[k - 1], m) in edges;
      p := q + [m];
    }
  }

  lemma RepeatIsCycle(edges: set<Edge>, p: seq<Course>, i: nat, j: nat)
    requires Path(edges, p) && i < j < |p| && p[i] == p[j]
    ensures Cyclic(edges)
  {
    assert Cycle(edges, p[i..j + 1]);
  }

  /** Among finitely many courses of an acyclic graph one requires none of them. */
  lemma UnlockedExists(edges: set<Edge>, nodes: set<Course>) returns (first: Course)
    requires !Cyclic(edges) && nodes != {}
    ensures first in nodes && forall m :: m in nodes ==> (first, m) !in edges
  {
    if forall n :: n in nodes ==> Waits(edges, nodes, n) {
      var p := WalkInside(edges, nodes, |nodes|);
      var i, j := Repeats(p, nodes);
      RepeatIsCycle(edges, p, i, j);
      assert false;
    }
    first :| first in nodes && !Waits(edges, nodes, first);
  }

  lemma Repeats(p: seq<Course>, nodes: set<Course>) returns (i: nat, j: nat)
    requires |p| > |nodes| && forall k :: 0 <= k < |p| ==> p[k] in nodes
    ensures i < j < |p| && p[i] == p[j]
  {
    if forall i, j :: 0 <= i < j < |p| ==> p[i] != p[j] {
      DistinctSize(p);
      SubsetSize(Elems(p), nodes);
      assert false;
    }
    i, j :| 0 <= i < j < |p| && p[i] == p[j];
  }

  lemma {:induction false} UnlockOrder(edges: set<Edge>, nodes: set<Course>) returns (order: seq<Course>)
    requires !Cyclic(edges)
    ensures |order| == |nodes| && (forall n :: n in order <==> n in nodes)
    ensures forall i, e :: 0 <= i < |order| && e in edges && e.0 == order[i] && e.1 in nodes ==> e.1 in order[..i]
    decreases nodes
  {
    if nodes == {} {
      order := [];
    } else {
      var first := UnlockedExists(edges, nodes);
      var rest := UnlockOrder(edges, nodes - {first});
      order := [first] + rest;
      forall i, e | 0 <= i < |order| && e in edges && e.0 == order[i] && e.1 in nodes
        ensures e.1 in order[..i]
      {
        assert (e.0, e.1) == e;
        assert i != 0;
        assert order[..i] == [first] + rest[..i - 1];
      }
    }
  }

  /** The graph is acyclic exactly when the courses can be completed in some
      order in which each one is unlocked when its turn comes. */
  lemma AcyclicIffUnlockable(edges: set<Edge>, nodes: set<Course>)
    requires forall e :: e in edges ==> e.0 in nodes && e.1 in nodes
    ensures !Cyclic(edges) <==>
            exists order :: RequirementsFirst(edges, order) && |order| == |nodes|
                            && forall n :: n in order <==> n in nodes
  {
    if !Cyclic(edges) {
      var order := UnlockOrder(edges, nodes);
      assert RequirementsFirst(edges, order);
    }
    if order :| RequirementsFirst(edges, order) && |order| == |nodes| && forall n :: n in order <==> n in nodes {
      OrderedIsAcyclic(edges, order);
    }
  }

  // ---- The shared table after a run ----

  /** The declared edges, and the old edges whose course is out of scope. */
  function Project(table: set<Edge>, wanted: set<Edge>, scoped: set<Course>): set<Edge> {
    wanted + (set e | e in table && e.0 !in scoped)
  }

  /** Re-running a file adds nothing and removes nothing. */
  lemma ProjectTwice(table: set<Edge>, wanted: set<Edge>, scoped: set<Course>)
    ensures Project(Project(table, wanted, scoped), wanted, scoped) == Project(table, wanted, scoped)
  {
  }

  lemma {:induction false} StaysWanted(p: seq<Course>, table: set<Edge>, wanted: set<Edge>, scoped: set<Course>,
      i: nat, j: nat)
    requires Path(Project(table, wanted, scoped), p) && i <= j < |p| - 1
    requires forall e :: e in wanted ==> e.1 in scoped
    requires (p[i], p[i + 1]) in wanted
    ensures (p[j], p[j + 1]) in wanted
    decreases j
  {
    if i < j {
      StaysWanted(p, table, wanted, scoped, i, j - 1);
      assert (p[j], p[j + 1]) in Project(table, wanted, scoped);
    }
  }

  lemma InsideKeepsAcyclic(table: set<Edge>, wanted: set<Edge>, scoped: set<Course>)
    requires !Cyclic(table) && !Cyclic(wanted)
    requires forall e :: e in wanted ==> e.1 in scoped
    ensures !Cyclic(Project(table, wanted, scoped))
  {
    forall p | Cycle(Project(table, wanted, scoped), p) ensures false {
      var n := |p| - 1;
      if i :| 0 <= i < n && (p[i], p[i + 1]) in wanted {
        StaysWanted(p, table, wanted, scoped, i, n - 1);
        assert p[n] in scoped;
        assert (p[0], p[1]) in Project(table, wanted, scoped);
        assert (p[0], p[1]) in wanted;
        forall j | 0 <= j < n ensures (p[j], p[j + 1]) in wanted {
          StaysWanted(p, table, wanted, scoped, 0, j);
        }
        assert Cycle(wanted, p);
      } else {
        forall j | 0 <= j < n ensures (p[j], p[j + 1]) in table {
          assert (p[j], p[j + 1]) in Project(table, wanted, scoped);
        }
        assert Cycle(table, p);
      }
      assert false;
    }
  }

  lemma OneEdgeIsAcyclic(a: Course, b: Course)
    requires a != b
    ensures !Cyclic({(a, b)})
  {
    var order := [b, a];
    assert order[..1] == [b];
    assert b in order[..1];
    OrderedIsAcyclic({(a, b)}, order);
  }

  lemma OutsideCanClose(wanted: set<Edge>, scoped: set<Course>, e: Edge) returns (table: set<Edge>)
    requires !Cyclic(wanted) && e in wanted && e.1 !in scoped
    ensures !Cyclic(table) && Cyclic(Project(table, wanted, scoped))
  {
    if e.0 == e.1 {
      assert Cycle(wanted, [e.0, e.1]);
      assert false;
    }
    table := {(e.1, e.0)};
    OneEdgeIsAcyclic(e.1, e.0);
    assert Cycle(Project(table, wanted, scoped), [e.0, e.1, e.0]);
  }

  /** A file with an acyclic graph keeps every acyclic table acyclic exactly when
      every requirement it declares is a course of its own discipline. Checking
      the file alone for cycles, as the writer does, is not enough otherwise. */
  lemma AcyclicKeptIff(wanted: set<Edge>, scoped: set<Course>)
    requires !Cyclic(wanted)
    ensures (forall table :: !Cyclic(table) ==> !Cyclic(Project(table, wanted, scoped)))
            <==> (forall e :: e in wanted ==> e.1 in scoped)
  {
    if forall e :: e in wanted ==> e.1 in scoped {
      forall table | !Cyclic(table) ensures !Cyclic(Project(table, wanted, scoped)) {
        InsideKeepsAcyclic(table, wanted, scoped);
      }
    } else {
      var e :| e in wanted && e.1 !in scoped;
      var table := OutsideCanClose(wanted, scoped, e);
    }
  }

  /** One accepted run: the declared edges and the courses of the discipline. */
  datatype Accepted = Accepted(wanted: set<Edge>, scoped: set<Course>)

  function Runs(table: set<Edge>, runs: seq<Accepted>): set<Edge>
    decreases |runs|
  {
    if runs == [] then table else Runs(Project(table, runs[0].wanted, runs[0].scoped), runs[1..])
  }

  /** Any sequence of accepted runs, by any disciplines in any order. */
  lemma {:induction false} RunsKeepUnlockable(table: set<Edge>, runs: seq<Accepted>, nodes: set<Course>)
    requires !Cyclic(table)
    requires forall i :: 0 <= i < |runs| ==> !Cyclic(runs[i].wanted)
    requires forall i :: 0 <= i < |runs| ==> forall e :: e in runs[i].wanted ==> e.1 in runs[i].scoped
    requires forall e :: e in table ==> e.0 in nodes && e.1 in nodes
    requires forall i, e :: 0 <= i < |runs| && e in runs[i].wanted ==> e.0 in nodes && e.1 in nodes
    ensures !Cyclic(Runs(table, runs))
    ensures exists order :: RequirementsFirst(Runs(table, runs), order) && |order| == |nodes|
                            && forall n :: n in order <==> n in nodes
    decreases |runs|
  {
    if runs == [] {
      AcyclicIffUnlockable(table, nodes);
    } else {
      InsideKeepsAcyclic(table, runs[0].wanted, runs[0].scoped);
      RunsKeepUnlockable(Project(table, runs[0].wanted, runs[0].scoped), runs[1..], nodes);
    }
  }

  /** Two files that are each acyclic and declare across disciplines can leave
      a cycle: sales (1) requires support (2), then support requires sales. */
  lemma CrossDisciplineCycle()
    ensures !Cyclic({(1, 2)}) && !Cyclic({(2, 1)})
    ensures Cyclic(Runs({}, [Accepted({(1, 2)}, {1}), Accepted({(2, 1)}, {2})]))
  {
    OneEdgeIsAcyclic(1, 2);
    OneEdgeIsAcyclic(2, 1);
    var first, second := Accepted({(1, 2)}, {1}), Accepted({(2, 1)}, {2});
    var once := Project({}, first.wanted, first.scoped);
    var twice := Project(once, second.wanted, second.scoped);
    assert (1, 2) in twice && (2, 1) in twice;
    assert Cycle(twice, [1, 2, 1]);
    assert [first, second][1..] == [second];
    assert Runs(once, [second]) == Runs(twice, []);
    assert Runs({}, [first, second]) == Runs(once, [second]);
  }
}
