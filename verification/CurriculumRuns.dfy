/** Any number of curriculum files, of any disciplines, loaded one after the other
    into one tenant's table. */
module CurriculumRuns {
  import opened Options
  import opened PrerequisiteGraph
  import opened CurriculumLoader

  /** Every requirement the file declares is a course of the file's discipline. */
  ghost predicate StaysInside(doc: Doc, courses: map<string, CourseRow>) {
    forall a, b :: Lists(doc, a, b) && b in courses ==> doc.discipline == Some(courses[b].discipline)
  }

  ghost predicate IsAccepted(doc: Doc, courses: map<string, CourseRow>) {
    && !RequiresItself(doc, courses) && !DeclaresCycle(doc, courses)
    && forall name :: !NamesUnknown(doc, courses, name)
  }

  function RunOf(doc: Doc, courses: map<string, CourseRow>): Accepted {
    Accepted(Wanted(Pairs(doc.prerequisites), courses), Scoped(courses, doc.discipline))
  }

  lemma LoadProjects(courses: map<string, CourseRow>, table: set<Edge>, doc: Doc)
    ensures AfterLoad(courses, table, doc, false) ==
            if IsAccepted(doc, courses) then Project(table, RunOf(doc, courses).wanted, RunOf(doc, courses).scoped)
            else table
  {
    SelfIsListed(doc, courses);
    CycleIsDeclared(doc, courses);
    UnknownNames(doc, courses);
  }

  ghost function LoadAll(courses: map<string, CourseRow>, table: set<Edge>, docs: seq<Doc>): set<Edge>
    decreases |docs|
  {
    if docs == [] then table else LoadAll(courses, AfterLoad(courses, table, docs[0], false), docs[1..])
  }

  /** The accepted files among them, as runs on the table. */
  ghost function RunsOf(courses: map<string, CourseRow>, docs: seq<Doc>): seq<Accepted> {
    if docs == [] then []
    else (if IsAccepted(docs[0], courses) then [RunOf(docs[0], courses)] else []) + RunsOf(courses, docs[1..])
  }

  lemma {:induction false} LoadsAreRuns(courses: map<string, CourseRow>, table: set<Edge>, docs: seq<Doc>)
    ensures LoadAll(courses, table, docs) == Runs(table, RunsOf(courses, docs))
    decreases |docs|
  {
    if docs != [] {
      LoadProjects(courses, table, docs[0]);
      LoadsAreRuns(courses, AfterLoad(courses, table, docs[0], false), docs[1..]);
      var rest := RunsOf(courses, docs[1..]);
      if IsAccepted(docs[0], courses) {
        var first := RunOf(docs[0], courses);
        assert ([first] + rest)[0] == first && ([first] + rest)[1..] == rest;
      } else {
        assert [] + rest == rest;
      }
    }
  }

  /** What RunsKeepUnlockable asks of a run. */
  ghost predicate Sound(run: Accepted, nodes: set<Course>) {
    && !Cyclic(run.wanted)
    && forall e :: e in run.wanted ==> e.0 in nodes && e.1 in nodes && e.1 in run.scoped
  }

  lemma RunIsSound(courses: map<string, CourseRow>, doc: Doc, nodes: set<Course>)
    requires IsAccepted(doc, courses) && StaysInside(doc, courses)
    requires forall s :: s in courses ==> courses[s].id in nodes
    ensures Sound(RunOf(doc, courses), nodes)
  {
    CycleIsDeclared(doc, courses);
    forall e | e in RunOf(doc, courses).wanted
      ensures e.0 in nodes && e.1 in nodes && e.1 in RunOf(doc, courses).scoped
    {
      WantedIsDeclared(doc, courses, e);
      var a, b :| Lists(doc, a, b) && a in courses && b in courses && e == (courses[a].id, courses[b].id);
    }
  }

  lemma {:induction false} RunsAreSound(courses: map<string, CourseRow>, docs: seq<Doc>, nodes: set<Course>)
    requires forall i :: 0 <= i < |docs| ==> StaysInside(docs[i], courses)
    requires forall s :: s in courses ==> courses[s].id in nodes
    ensures forall i :: 0 <= i < |RunsOf(courses, docs)| ==> Sound(RunsOf(courses, docs)[i], nodes)
  {
    if docs != [] {
      RunsAreSound(courses, docs[1..], nodes);
      if IsAccepted(docs[0], courses) {
        RunIsSound(courses, docs[0], nodes);
      }
    }
  }

  /** Files whose requirements stay inside their own discipline, loaded in any
      order and refused or not, leave an acyclic table acyclic and an order in which
      every course can be unlocked. */
  lemma LoadsKeepUnlockable(courses: map<string, CourseRow>, table: set<Edge>, docs: seq<Doc>, nodes: set<Course>)
    requires !Cyclic(table) && forall i :: 0 <= i < |docs| ==> StaysInside(docs[i], courses)
    requires forall s :: s in courses ==> courses[s].id in nodes
    requires forall e :: e in table ==> e.0 in nodes && e.1 in nodes
    ensures !Cyclic(LoadAll(courses, table, docs))
    ensures exists order :: RequirementsFirst(LoadAll(courses, table, docs), order) && |order| == |nodes|
                            && forall n :: n in order <==> n in nodes
  {
    var runs := RunsOf(courses, docs);
    LoadsAreRuns(courses, table, docs);
    RunsAreSound(courses, docs, nodes);
    RunsKeepUnlockable(table, runs, nodes);
  }

  ghost predicate DistinctIds(courses: map<string, CourseRow>) {
    forall s, t :: s in courses && t in courses && courses[s].id == courses[t].id ==> s == t
  }

  /** An accepted file keeps every acyclic table acyclic exactly when the courses it
      requires are of its own discipline. */
  lemma LoadKeepsAcyclicIff(courses: map<string, CourseRow>, doc: Doc)
    requires DistinctIds(courses) && IsAccepted(doc, courses)
    ensures (forall table :: !Cyclic(table) ==> !Cyclic(AfterLoad(courses, table, doc, false)))
            <==> StaysInside(doc, courses)
  {
    var run := RunOf(doc, courses);
    CycleIsDeclared(doc, courses);
    InsideIffScoped(courses, doc);
    forall table ensures AfterLoad(courses, table, doc, false) == Project(table, run.wanted, run.scoped) {
      LoadProjects(courses, table, doc);
    }
    AcyclicKeptIff(run.wanted, run.scoped);
  }

  lemma InsideIffScoped(courses: map<string, CourseRow>, doc: Doc)
    requires DistinctIds(courses) && IsAccepted(doc, courses)
    ensures StaysInside(doc, courses) <==>
            forall e :: e in RunOf(doc, courses).wanted ==> e.1 in RunOf(doc, courses).scoped
  {
    var run := RunOf(doc, courses);
    forall e ensures e in run.wanted <==> Declares(doc, courses, e) {
      WantedIsDeclared(doc, courses, e);
    }
    if forall e :: e in run.wanted ==> e.1 in run.scoped {
      forall a, b | Lists(doc, a, b) && b in courses ensures doc.discipline == Some(courses[b].discipline) {
        assert !NamesUnknown(doc, courses, a);
        assert Declares(doc, courses, (courses[a].id, courses[b].id));
        assert (courses[a].id, courses[b].id).1 in run.scoped;
      }
    }
  }
}
