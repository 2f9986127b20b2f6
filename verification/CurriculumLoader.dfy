/** `load-curriculum`: resolve a file's prerequisites, refuse a cycle, and
    project the declared graph into the tenant's shared table. */
module CurriculumLoader {
  import opened Options
  import opened PrerequisiteGraph

  datatype CourseRow = CourseRow(id: Course, discipline: string)
  datatype Entry = Entry(course: string, required: seq<string>)
  datatype Doc = Doc(discipline: Option<string>, prerequisites: seq<Entry>)

  datatype Outcome =
    | SelfRequirement(slug: string)
    | NotImported(missing: set<string>)
    | CycleRefused
    | DryRun(added: nat, removed: nat)
    | Loaded(added: nat, removed: nat, declared: nat)

  // ---- What a file declares ----

  type Pair = (string, string)

  function EntryPairs(e: Entry, n: nat): set<Pair>
    requires n <= |e.required|
  {
    set j: nat | j < n :: (e.course, e.required[j])
  }

  function Pairs(entries: seq<Entry>): set<Pair> {
    if entries == [] then {}
    else Pairs(entries[..|entries| - 1]) + EntryPairs(entries[|entries| - 1], |entries[|entries| - 1].required|)
  }

  function Wanted(pairs: set<Pair>, courses: map<string, CourseRow>): set<Edge> {
    set p | p in pairs && p.0 in courses && p.1 in courses :: (courses[p.0].id, courses[p.1].id)
  }

  function Missing(pairs: set<Pair>, courses: map<string, CourseRow>): set<string> {
    (set p | p in pairs && p.0 !in courses :: p.0) + (set p | p in pairs && p.1 !in courses :: p.1)
  }

  predicate SelfPair(p: Pair, courses: map<string, CourseRow>) {
    p.0 == p.1 && p.0 in courses
  }

  function Scoped(courses: map<string, CourseRow>, discipline: Option<string>): set<Course> {
    set s | s in courses && discipline == Some(courses[s].discipline) :: courses[s].id
  }

  // ---- The same in the file's own terms ----

  predicate ListedAt(doc: Doc, i: nat, j: nat, a: string, b: string) {
    && i < |doc.prerequisites| && j < |doc.prerequisites[i].required|
    && doc.prerequisites[i].course == a && doc.prerequisites[i].required[j] == b
  }

  /** Some entry of the file says that course a requires course b. */
  ghost predicate Lists(doc: Doc, a: string, b: string) { exists i, j :: ListedAt(doc, i, j, a, b) }

  ghost predicate Declares(doc: Doc, courses: map<string, CourseRow>, e: Edge) {
    exists a, b :: Lists(doc, a, b) && a in courses && b in courses && e == (courses[a].id, courses[b].id)
  }

  ghost predicate RequiresItself(doc: Doc, courses: map<string, CourseRow>) {
    exists a :: Lists(doc, a, a) && a in courses
  }

  ghost predicate NamesUnknown(doc: Doc, courses: map<string, CourseRow>, name: string) {
    name !in courses && exists other :: Lists(doc, name, other) || Lists(doc, other, name)
  }

  /** Courses that each require the next, back to the first. */
  ghost predicate DeclaresCycle(doc: Doc, courses: map<string, CourseRow>) {
    exists p: seq<Course> :: |p| >= 2 && p[0] == p[|p| - 1]
      && forall k :: 0 <= k < |p| - 1 ==> Declares(doc, courses, (p[k], p[k + 1]))
  }

  /** An imported course of the file's discipline. */
  ghost predicate OwnCourse(courses: map<string, CourseRow>, discipline: Option<string>, c: Course) {
    exists s :: s in courses && courses[s].id == c && discipline == Some(courses[s].discipline)
  }

  lemma {:induction false} PairOrigin(entries: seq<Entry>, p: Pair) returns (i: nat, j: nat)
    requires p in Pairs(entries)
    ensures i < |entries| && j < |entries[i].required| && p == (entries[i].course, entries[i].required[j])
  {
    var n := |entries| - 1;
    if p in Pairs(entries[..n]) {
      i, j := PairOrigin(entries[..n], p);
    } else {
      i := n;
      j :| j < |entries[n].required| && p == (entries[n].course, entries[n].required[j]);
    }
  }

  lemma PairsAreListed(doc: Doc, a: string, b: string)
    ensures (a, b) in Pairs(doc.prerequisites) <==> Lists(doc, a, b)
  {
    if (a, b) in Pairs(doc.prerequisites) {
      var i, j := PairOrigin(doc.prerequisites, (a, b));
      assert ListedAt(doc, i, j, a, b);
    }
    if i, j :| ListedAt(doc, i, j, a, b) {
      DeclaredPair(doc.prerequisites, i, j);
    }
  }

  lemma WantedIsDeclared(doc: Doc, courses: map<string, CourseRow>, e: Edge)
    ensures e in Wanted(Pairs(doc.prerequisites), courses) <==> Declares(doc, courses, e)
  {
    if e in Wanted(Pairs(doc.prerequisites), courses) {
      var p :| p in Pairs(doc.prerequisites) && p.0 in courses && p.1 in courses
        && e == (courses[p.0].id, courses[p.1].id);
      PairsAreListed(doc, p.0, p.1);
    }
    if a, b :| Lists(doc, a, b) && a in courses && b in courses && e == (courses[a].id, courses[b].id) {
      PairsAreListed(doc, a, b);
      assert (a, b) in Pairs(doc.prerequisites);
    }
  }

  lemma MissingIsUnknown(doc: Doc, courses: map<string, CourseRow>, name: string)
    ensures name in Missing(Pairs(doc.prerequisites), courses) <==> NamesUnknown(doc, courses, name)
  {
    if name in Missing(Pairs(doc.prerequisites), courses) {
      var p :| p in Pairs(doc.prerequisites) && (p.0 == name || p.1 == name);
      PairsAreListed(doc, p.0, p.1);
    }
    if NamesUnknown(doc, courses, name) {
      var other :| Lists(doc, name, other) || Lists(doc, other, name);
      PairsAreListed(doc, name, other);
      PairsAreListed(doc, other, name);
    }
  }

  lemma SelfIsListed(doc: Doc, courses: map<string, CourseRow>)
    ensures (exists p :: p in Pairs(doc.prerequisites) && SelfPair(p, courses)) <==> RequiresItself(doc, courses)
  {
    if p :| p in Pairs(doc.prerequisites) && SelfPair(p, courses) {
      PairsAreListed(doc, p.0, p.1);
    }
    if a :| Lists(doc, a, a) && a in courses {
      PairsAreListed(doc, a, a);
      assert SelfPair((a, a), courses);
    }
  }

  lemma CycleIsDeclared(doc: Doc, courses: map<string, CourseRow>)
    ensures Cyclic(Wanted(Pairs(doc.prerequisites), courses)) <==> DeclaresCycle(doc, courses)
  {
    var wanted := Wanted(Pairs(doc.prerequisites), courses);
    forall e ensures e in wanted <==> Declares(doc, courses, e) {
      WantedIsDeclared(doc, courses, e);
    }
    if p :| Cycle(wanted, p) {
      assert forall k :: 0 <= k < |p| - 1 ==> Declares(doc, courses, (p[k], p[k + 1]));
    }
    if DeclaresCycle(doc, courses) {
      var p: seq<Course> :| |p| >= 2 && p[0] == p[|p| - 1]
        && forall k :: 0 <= k < |p| - 1 ==> Declares(doc, courses, (p[k], p[k + 1]));
      assert Cycle(wanted, p);
    }
  }

  /** The table a run leaves: what the file declares, and the old rows whose course
      is not an imported course of the file's discipline. */
  ghost predicate Projected(doc: Doc, courses: map<string, CourseRow>, before: set<Edge>, after: set<Edge>) {
    forall e :: e in after <==>
      Declares(doc, courses, e) || (e in before && !OwnCourse(courses, doc.discipline, e.0))
  }

  lemma ProjectIsProjected(doc: Doc, courses: map<string, CourseRow>, table: set<Edge>)
    ensures Projected(doc, courses, table,
              Project(table, Wanted(Pairs(doc.prerequisites), courses), Scoped(courses, doc.discipline)))
  {
    var wanted, scoped := Wanted(Pairs(doc.prerequisites), courses), Scoped(courses, doc.discipline);
    forall e
      ensures e in Project(table, wanted, scoped) <==>
              Declares(doc, courses, e) || (e in table && !OwnCourse(courses, doc.discipline, e.0))
    {
      WantedIsDeclared(doc, courses, e);
    }
  }

  /** The table after a run: refused runs and dry runs leave it as it was. */
  ghost function AfterLoad(courses: map<string, CourseRow>, table: set<Edge>, doc: Doc, dryRun: bool): set<Edge> {
    if dryRun || Refuses(courses, Pairs(doc.prerequisites)) then table
    else Project(table, Wanted(Pairs(doc.prerequisites), courses), Scoped(courses, doc.discipline))
  }

  ghost predicate Refuses(courses: map<string, CourseRow>, pairs: set<Pair>) {
    || (exists p :: p in pairs && SelfPair(p, courses))
    || Missing(pairs, courses) != {}
    || Cyclic(Wanted(pairs, courses))
  }

  /** Which outcome a run has, and the table it leaves. */
  ghost predicate Loads(courses: map<string, CourseRow>, before: set<Edge>, doc: Doc, dryRun: bool, r: Outcome,
      after: set<Edge>) {
    var pairs := Pairs(doc.prerequisites);
    var wanted := Wanted(pairs, courses);
    var kept := Project(before, wanted, Scoped(courses, doc.discipline));
    && (r.SelfRequirement? <==> exists p :: p in pairs && SelfPair(p, courses))
    && (r.NotImported? <==> !r.SelfRequirement? && Missing(pairs, courses) != {})
    && (r.NotImported? ==> r.missing == Missing(pairs, courses))
    && (r.CycleRefused? <==> !r.SelfRequirement? && !r.NotImported? && Cyclic(wanted))
    && (r.DryRun? ==> dryRun && r.added == |kept - before| && r.removed == |before - kept|)
    && (r.Loaded? ==> !dryRun && r.added == |kept - before| && r.removed == |before - kept|
                      && r.declared == |wanted|)
    && after == if r.Loaded? then kept else before
  }

  /** What a run promises in the file's own terms. It refuses exactly a course that
      requires itself, then names that are not imported, then a declared cycle, and
      otherwise leaves the declared edges and, of the old ones, exactly those whose
      course is no imported course of the file's discipline. */
  lemma LoadPromises(courses: map<string, CourseRow>, before: set<Edge>, doc: Doc, dryRun: bool, r: Outcome,
      after: set<Edge>)
    requires Loads(courses, before, doc, dryRun, r, after)
    ensures r.SelfRequirement? <==> RequiresItself(doc, courses)
    ensures r.NotImported? <==> !r.SelfRequirement? && exists name :: NamesUnknown(doc, courses, name)
    ensures r.NotImported? ==> forall name :: name in r.missing <==> NamesUnknown(doc, courses, name)
    ensures r.CycleRefused? <==> !r.SelfRequirement? && !r.NotImported? && DeclaresCycle(doc, courses)
    ensures r.Loaded? ==> forall e ::
              e in after <==> Declares(doc, courses, e) || (e in before && !OwnCourse(courses, doc.discipline, e.0))
    ensures r.Loaded? ==> r.added == |after - before| && r.removed == |before - after|
    ensures !r.Loaded? ==> after == before
    ensures after == AfterLoad(courses, before, doc, dryRun)
  {
    SelfIsListed(doc, courses);
    CycleIsDeclared(doc, courses);
    ProjectIsProjected(doc, courses, before);
    UnknownNames(doc, courses);
  }

  /** A dry run reports what the run would add and remove. */
  lemma DryRunForetells(courses: map<string, CourseRow>, before: set<Edge>, doc: Doc, dryRun: bool, r: Outcome,
      after: set<Edge>)
    requires Loads(courses, before, doc, dryRun, r, after) && r.DryRun?
    ensures var would := AfterLoad(courses, before, doc, false);
            r.added == |would - before| && r.removed == |before - would|
  {
    assert !Refuses(courses, Pairs(doc.prerequisites));
  }

  lemma UnknownNames(doc: Doc, courses: map<string, CourseRow>)
    ensures forall name :: name in Missing(Pairs(doc.prerequisites), courses) <==> NamesUnknown(doc, courses, name)
    ensures Missing(Pairs(doc.prerequisites), courses) != {} <==> exists name :: NamesUnknown(doc, courses, name)
  {
    var missing := Missing(Pairs(doc.prerequisites), courses);
    forall name ensures name in missing <==> NamesUnknown(doc, courses, name) {
      MissingIsUnknown(doc, courses, name);
    }
    if missing != {} {
      var name :| name in missing;
    }
  }

  // ---- The three-colour depth-first search ----

  datatype Colour = Open | Closed

  class CycleSearch {
    const edges: map<Course, set<Course>>
    var state: map<Course, Colour>
    /** The open courses from the root to the current one. */
    ghost var stack: seq<Course>
    /** The closed courses, in closing order. */
    ghost var closed: seq<Course>

    ghost function Edges(): set<Edge> {
      set a, b | a in edges && b in edges[a] :: (a, b)
    }

    ghost function Nodes(): set<Course> {
      edges.Keys + set a, b | a in edges && b in edges[a] :: b
    }

    ghost predicate Valid()
      reads this
    {
      && state.Keys <= Nodes()
      && (forall n :: n in state && state[n] == Open <==> n in stack)
      && (forall n :: n in state && state[n] == Closed <==> n in closed)
      && Path(Edges(), stack)
      && RequirementsFirst(Edges(), closed)
    }

    constructor (edges: map<Course, set<Course>>)
      ensures this.edges == edges && Valid() && stack == [] && closed == [] && state == map[]
    {
      this.edges := edges;
      state := map[];
      stack := [];
      closed := [];
    }

    function Successors(n: Course): (s: set<Course>)
      ensures forall b :: b in s <==> (n, b) in Edges()
      ensures s <= Nodes()
    {
      if n in edges then edges[n] else {}
    }

    /** `_walk`: colours everything reachable from `node`, or finds a cycle. */
    method Walk(node: Course) returns (cycle: bool)
      requires Valid() && node in Nodes() && node !in state
      requires stack != [] ==> (stack[|stack| - 1], node) in Edges()
      modifies this
      ensures cycle ==> Cyclic(Edges())
      ensures !cycle ==> Valid() && stack == old(stack) && old(closed) <= closed && node in closed
      ensures !cycle ==> old(state.Keys) <= state.Keys
      decreases Nodes() - state.Keys
    {
      Enter(node);
      var todo := Successors(node);
      ghost var here := stack;
      while todo != {}
        invariant Valid() && stack == here && old(closed) <= closed
        invariant old(state.Keys) + {node} <= state.Keys
        invariant todo <= Successors(node)
        invariant forall b :: b in Successors(node) - todo ==> b in closed
        decreases todo
      {
        var next :| next in todo;
        todo := todo - {next};
        if next in state && state[next] == Open {
          CycleThrough(next);
          return true;
        }
        if next !in state {
          var found := Walk(next);
          if found {
            return true;
          }
        }
      }
      Close(node);
      return false;
    }

    /** The stack from an open course to the top, closed by the edge back. */
    ghost method CycleThrough(next: Course)
      requires Valid() && next in stack && (stack[|stack| - 1], next) in Edges()
      ensures Cyclic(Edges())
    {
      var i :| 0 <= i < |stack| && stack[i] == next;
      assert Cycle(Edges(), stack[i..] + [next]);
    }

    method Enter(node: Course)
      requires Valid() && node in Nodes() && node !in state
      requires stack != [] ==> (stack[|stack| - 1], node) in Edges()
      modifies this
      ensures Valid() && stack == old(stack) + [node] && node !in old(stack)
      ensures closed == old(closed) && state.Keys == old(state.Keys) + {node}
    {
      state := state[node := Open];
      stack := stack + [node];
    }

    method Close(node: Course)
      requires Valid() && stack != [] && stack[|stack| - 1] == node && node !in stack[..|stack| - 1]
      requires forall b :: b in Successors(node) ==> b in closed
      modifies this
      ensures Valid() && stack == old(stack)[..|old(stack)| - 1]
      ensures closed == old(closed) + [node] && state.Keys == old(state.Keys)
    {
      assert forall e :: e in Edges() && e.0 == node ==> e.1 in Successors(node);
      FirstAppend(Edges(), closed, node);
      state := state[node := Closed];
      stack := stack[..|stack| - 1];
      closed := closed + [node];
    }

    /** Refuses exactly the graphs that have a cycle, and always ends. */
    method HasCycle() returns (cycle: bool)
      requires Valid() && stack == [] && closed == [] && state == map[]
      modifies this
      ensures cycle <==> Cyclic(Edges())
    {
      var todo := edges.Keys;
      while todo != {}
        invariant Valid() && stack == [] && todo <= edges.Keys
        invariant forall n :: n in edges.Keys - todo ==> n in closed
        decreases todo
      {
        var node :| node in todo;
        todo := todo - {node};
        if node !in state {
          var found := Walk(node);
          if found {
            return true;
          }
        }
      }
      OrderedIsAcyclic(Edges(), closed);
      return false;
    }
  }

  lemma FirstAppend(edges: set<Edge>, order: seq<Course>, node: Course)
    requires RequirementsFirst(edges, order) && forall e :: e in edges && e.0 == node ==> e.1 in order
    ensures RequirementsFirst(edges, order + [node])
  {
    var all := order + [node];
    forall i, e | 0 <= i < |all| && e in edges && e.0 == all[i] ensures e.1 in all[..i] {
      assert all[..i] == if i < |order| then order[..i] else order;
    }
  }

  // ---- The writer ----

  /** `edges.setdefault(course_id, set()).add(requires_id)` for every wanted edge. */
  method Adjacency(wanted: set<Edge>) returns (edges: map<Course, set<Course>>)
    ensures forall a, b :: a in edges && b in edges[a] <==> (a, b) in wanted
  {
    edges := map[];
    var todo := wanted;
    while todo != {}
      invariant todo <= wanted
      invariant forall a, b :: a in edges && b in edges[a] <==> (a, b) in wanted - todo
      decreases todo
    {
      var e :| e in todo;
      todo := todo - {e};
      var targets := if e.0 in edges then edges[e.0] else {};
      edges := edges[e.0 := targets + {e.1}];
    }
  }

  class Tenant {
    const courses: map<string, CourseRow>
    /** The tenant's `course_prerequisites` rows, of every discipline. */
    var table: set<Edge>

    constructor (courses: map<string, CourseRow>, table: set<Edge>)
      ensures this.courses == courses && this.table == table
    {
      this.courses := courses;
      this.table := table;
    }

    /** Everything read so far: no course requires itself, and the pairs were
        sorted into edges between imported courses and unknown names. */
    ghost predicate Read(pairs: set<Pair>, wanted: set<Edge>, missing: set<string>) {
      && (forall p :: p in pairs ==> !SelfPair(p, courses))
      && wanted == Wanted(pairs, courses)
      && missing == Missing(pairs, courses)
    }

    method ReadPair(pair: Pair, ghost pairs: set<Pair>, wanted: set<Edge>, missing: set<string>)
      returns (self: bool, wanted': set<Edge>, missing': set<string>)
      requires Read(pairs, wanted, missing)
      ensures self <==> SelfPair(pair, courses)
      ensures !self ==> Read(pairs + {pair}, wanted', missing')
    {
      self, wanted', missing' := false, wanted, missing;
      if pair.0 !in courses {
        missing' := missing' + {pair.0};
      }
      if pair.1 !in courses {
        missing' := missing' + {pair.1};
      }
      if pair.0 in courses && pair.1 in courses {
        if pair.0 == pair.1 {
          return true, wanted', missing';
        }
        wanted' := wanted' + {(courses[pair.0].id, courses[pair.1].id)};
      }
      WantedAdd(pairs, pair, courses);
    }

    /** Reads every declared pair; stops at the first course that requires itself. */
    method Resolve(doc: Doc) returns (self: Option<string>, wanted: set<Edge>, missing: set<string>)
      ensures self.Some? ==>
                SelfPair((self.value, self.value), courses) && (self.value, self.value) in Pairs(doc.prerequisites)
      ensures self.None? ==> Read(Pairs(doc.prerequisites), wanted, missing)
    {
      self, wanted, missing := None, {}, {};
      for i := 0 to |doc.prerequisites|
        invariant self == None && Read(Pairs(doc.prerequisites[..i]), wanted, missing)
      {
        var entry := doc.prerequisites[i];
        ghost var before := Pairs(doc.prerequisites[..i]);
        PairsPrefix(doc.prerequisites, i);
        assert before + EntryPairs(entry, 0) == before;
        for j := 0 to |entry.required|
          invariant self == None && Read(before + EntryPairs(entry, j), wanted, missing)
        {
          var pair := (entry.course, entry.required[j]);
          var found;
          found, wanted, missing := ReadPair(pair, before + EntryPairs(entry, j), wanted, missing);
          if found {
            DeclaredPair(doc.prerequisites, i, j);
            return Some(pair.0), wanted, missing;
          }
          EntryNext(before, entry, j);
        }
      }
      assert doc.prerequisites[..|doc.prerequisites|] == doc.prerequisites;
    }

    /** `_load_curriculum`. */
    method Load(doc: Doc, dryRun: bool) returns (r: Outcome)
      modifies this
      ensures Loads(courses, old(table), doc, dryRun, r, table)
    {
      var self, wanted, missing := Resolve(doc);
      if self.Some? {
        return SelfRequirement(self.value);
      }
      if missing != {} {
        return NotImported(missing);
      }
      var edges := Adjacency(wanted);
      var search := new CycleSearch(edges);
      assert search.Edges() == wanted;
      var cycle := search.HasCycle();
      if cycle {
        return CycleRefused;
      }
      var scoped := Scoped(courses, doc.discipline);
      var next, added, removed := Merge(table, wanted, scoped);
      if dryRun {
        return DryRun(added, removed);
      }
      table := next;
      return Loaded(added, removed, |wanted|);
    }
  }

  lemma PairsPrefix(entries: seq<Entry>, i: nat)
    requires i < |entries|
    ensures Pairs(entries[..i + 1]) == Pairs(entries[..i]) + EntryPairs(entries[i], |entries[i].required|)
    ensures Pairs(entries[..i + 1]) <= Pairs(entries)
    decreases |entries| - i
  {
    assert entries[..i + 1][..i] == entries[..i];
    if i + 1 < |entries| {
      PairsPrefix(entries, i + 1);
    } else {
      assert entries[..i + 1] == entries;
    }
  }

  lemma EntryNext(before: set<Pair>, e: Entry, j: nat)
    requires j < |e.required|
    ensures before + EntryPairs(e, j + 1) == before + EntryPairs(e, j) + {(e.course, e.required[j])}
  {
  }

  lemma DeclaredPair(entries: seq<Entry>, i: nat, j: nat)
    requires i < |entries| && j < |entries[i].required|
    ensures (entries[i].course, entries[i].required[j]) in Pairs(entries)
  {
    PairsPrefix(entries, i);
    assert (entries[i].course, entries[i].required[j]) in EntryPairs(entries[i], |entries[i].required|);
  }

  lemma WantedAdd(pairs: set<Pair>, p: Pair, courses: map<string, CourseRow>)
    ensures Wanted(pairs + {p}, courses) ==
            Wanted(pairs, courses) +
            (if p.0 in courses && p.1 in courses then {(courses[p.0].id, courses[p.1].id)} else {})
    ensures Missing(pairs + {p}, courses) ==
            Missing(pairs, courses) + (if p.0 !in courses then {p.0} else {}) + (if p.1 !in courses then {p.1} else {})
  {
  }

  method AddDeclared(table: set<Edge>, wanted: set<Edge>) returns (next: set<Edge>, added: nat)
    ensures next == table + wanted && added == |wanted - table|
  {
    next, added := table, 0;
    ghost var done: set<Edge> := {};
    var todo := wanted - table;
    while todo != {}
      invariant done + todo == wanted - table && done !! todo
      invariant next == table + done && added == |done|
      decreases todo
    {
      var e :| e in todo;
      todo := todo - {e};
      next := next + {e};
      added := added + 1;
      done := done + {e};
    }
    assert done == wanted - table;
  }

  method DeleteUndeclared(table: set<Edge>, next0: set<Edge>, wanted: set<Edge>, scoped: set<Course>)
    returns (next: set<Edge>, removed: nat)
    ensures next == next0 - (set e | e in table && e !in wanted && e.0 in scoped)
    ensures removed == |set e | e in table && e !in wanted && e.0 in scoped|
  {
    next, removed := next0, 0;
    ghost var dropped: set<Edge> := {};
    var todo := table;
    while todo != {}
      invariant todo <= table
      invariant dropped == set e | e in table - todo && e !in wanted && e.0 in scoped
      invariant next == next0 - dropped && removed == |dropped|
      decreases todo
    {
      var e :| e in todo;
      todo := todo - {e};
      if e !in wanted && e.0 in scoped {
        next := next - {e};
        removed := removed + 1;
        dropped := dropped + {e};
      }
    }
    assert dropped == set e | e in table && e !in wanted && e.0 in scoped;
  }

  /** The two loops over the difference of declared and existing rows. */
  method Merge(table: set<Edge>, wanted: set<Edge>, scoped: set<Course>)
    returns (next: set<Edge>, added: nat, removed: nat)
    ensures next == Project(table, wanted, scoped)
    ensures added == |next - table| && removed == |table - next|
  {
    next, added := AddDeclared(table, wanted);
    next, removed := DeleteUndeclared(table, next, wanted, scoped);
    assert next == Project(table, wanted, scoped);
    assert next - table == wanted - table;
    assert table - next == set e | e in table && e !in wanted && e.0 in scoped;
  }
}
