/** Any serial mix of local and external submissions, interleaved with the
    pipeline's own status changes. */
module IntakeRuns {
  import opened Options
  import opened AdmissionsLedger
  import opened Intake

  datatype Step =
    | Apply(a: Application)
    | FromOutside(external: string, email: string, first: string, last: string, source: string)
    | Progress(row: nat, status: Status)

  /** A refused submission is rolled back. */
  function Next(rows: seq<Row>, step: Step): seq<Row> {
    match step
    case Apply(a) => if Submit(rows, a).Stored? then Submit(rows, a).rows else rows
    case FromOutside(external, email, first, last, source) =>
      var out := SubmitExternal(rows, external, email, first, last, source);
      if out.Stored? then out.rows else rows
    case Progress(i, status) => if i < |rows| then rows[i := rows[i].(status := status)] else rows
  }

  function Run(rows: seq<Row>, steps: seq<Step>): seq<Row> {
    if steps == [] then rows else Next(Run(rows, steps[..|steps| - 1]), steps[|steps| - 1])
  }

  /** What the candidates last said: the newest non-blank value given for the
      field by an application with this key. */
  function LastSupplied(steps: seq<Step>, key: Key, field: string): Option<Value> {
    if steps == [] then None
    else
      var last := steps[|steps| - 1];
      if last.Apply? && TrackAllowed(last.a) && KeyOf(last.a.email, last.a.external) == key
         && Supplied(last.a.form, field).Some?
      then Supplied(last.a.form, field)
      else LastSupplied(steps[..|steps| - 1], key, field)
  }

  function RowAt(rows: seq<Row>, key: Key): (i: nat)
    ensures i <= |rows|
    ensures i < |rows| ==> RowKey(rows[i]) == key
    ensures forall j :: 0 <= j < i ==> RowKey(rows[j]) != key
  {
    if rows == [] || RowKey(rows[0]) == key then 0 else 1 + RowAt(rows[1..], key)
  }

  function ProfileAt(rows: seq<Row>, key: Key, field: string): Option<Value> {
    var i := RowAt(rows, key);
    if i < |rows| && field in rows[i].profile then Some(rows[i].profile[field]) else None
  }

  predicate NamesReference(step: Step) {
    step.Apply? ==> step.a.external != Some("")
  }

  lemma RowAtUnique(rows: seq<Row>, i: nat)
    requires OneRowPerKey(rows) && i < |rows|
    ensures RowAt(rows, RowKey(rows[i])) == i
  {
  }

  lemma NextKeepsKeys(rows: seq<Row>, step: Step)
    requires OneRowPerKey(rows)
    ensures OneRowPerKey(Next(rows, step))
  {
    match step {
      case Apply(a) => if Submit(rows, a).Stored? { SubmitKeepsKeys(rows, a); }
      case FromOutside(external, email, first, last, source) =>
        SubmitExternalKeepsKeys(rows, external, email, first, last, source);
      case Progress(i, status) =>
        if i < |rows| {
          forall j | 0 <= j < |rows| ensures RowKey(rows[i := rows[i].(status := status)][j]) == RowKey(rows[j]) {}
        }
    }
  }

  /** Every row of the table before keeps its key and its status; a new row is
      at the end and starts as `applied`. */
  lemma SubmissionKeepsStatus(rows: seq<Row>, step: Step)
    requires !step.Progress?
    ensures |rows| <= |Next(rows, step)| <= |rows| + 1
    ensures forall i :: 0 <= i < |rows| ==>
              Next(rows, step)[i].status == rows[i].status && RowKey(Next(rows, step)[i]) == RowKey(rows[i])
    ensures |Next(rows, step)| > |rows| ==> Next(rows, step)[|rows|].status == Applied
  {
  }

  lemma {:induction false} SubmissionsKeepStatus(rows: seq<Row>, steps: seq<Step>)
    requires forall k :: 0 <= k < |steps| ==> !steps[k].Progress?
    ensures |rows| <= |Run(rows, steps)|
    ensures forall i :: 0 <= i < |rows| ==> Run(rows, steps)[i].status == rows[i].status
    ensures forall i :: |rows| <= i < |Run(rows, steps)| ==> Run(rows, steps)[i].status == Applied
  {
    if steps != [] {
      SubmissionsKeepStatus(rows, steps[..|steps| - 1]);
      SubmissionKeepsStatus(Run(rows, steps[..|steps| - 1]), steps[|steps| - 1]);
    }
  }

  // ---- The profile ----

  function Lookup(profile: Profile, field: string): Option<Value> {
    if field in profile then Some(profile[field]) else None
  }

  lemma SuppliedLookup(profile: Profile, form: Option<Form>, field: string)
    ensures Lookup(WithSupplied(profile, form), field) ==
            if Supplied(form, field).Some? then Supplied(form, field) else Lookup(profile, field)
  {
  }

  lemma StoredProfile(rows: seq<Row>, a: Application)
    requires TrackAllowed(a) && Submit(rows, a).Stored?
    ensures var out := Submit(rows, a);
            && out.at < |out.rows| && (out.created ==> out.at == |rows|) && (!out.created ==> out.at < |rows|)
            && out.rows[out.at].profile ==
               WithSupplied(if out.created then map[] else rows[out.at].profile, a.form)
  {
  }

  lemma LandedProfile(rows: seq<Row>, after: seq<Row>, at: nat, form: Option<Form>, field: string)
    requires OneRowPerKey(rows) && OneRowPerKey(after) && at < |after| && at <= |rows|
    requires at < |rows| ==> RowKey(rows[at]) == RowKey(after[at])
    requires at == |rows| ==> forall j :: 0 <= j < |rows| ==> RowKey(rows[j]) != RowKey(after[at])
    requires after[at].profile == WithSupplied(if at < |rows| then rows[at].profile else map[], form)
    ensures ProfileAt(after, RowKey(after[at]), field) ==
            if Supplied(form, field).Some? then Supplied(form, field) else ProfileAt(rows, RowKey(after[at]), field)
  {
    RowAtUnique(after, at);
    SuppliedLookup(if at < |rows| then rows[at].profile else map[], form, field);
    if at < |rows| {
      RowAtUnique(rows, at);
    }
  }

  lemma SubmitProfile(rows: seq<Row>, a: Application, key: Key, field: string)
    requires OneRowPerKey(rows) && a.external != Some("") && TrackAllowed(a)
    ensures Submit(rows, a).Stored?
    ensures ProfileAt(Submit(rows, a).rows, key, field) ==
            if key == KeyOf(a.email, a.external) && Supplied(a.form, field).Some? then Supplied(a.form, field)
            else ProfileAt(rows, key, field)
  {
    RefusedIff(rows, a);
    SubmitKeepsKeys(rows, a);
    StoredProfile(rows, a);
    var out := Submit(rows, a);
    if key == KeyOf(a.email, a.external) {
      LandedProfile(rows, out.rows, out.at, a.form, field);
    } else {
      OthersKeep(rows, out.rows, out.at, key);
    }
  }

  /** Changing or appending the row at one key leaves the rows of other keys. */
  lemma OthersKeep(rows: seq<Row>, after: seq<Row>, at: nat, key: Key)
    requires OneRowPerKey(rows) && OneRowPerKey(after)
    requires at < |after| && |rows| <= |after| && (|after| > |rows| ==> at == |rows| && |after| == |rows| + 1)
    requires forall j :: 0 <= j < |rows| && j != at ==> after[j] == rows[j]
    requires RowKey(after[at]) != key && (at < |rows| ==> RowKey(rows[at]) == RowKey(after[at]))
    ensures var (i, j) := (RowAt(rows, key), RowAt(after, key));
            (i < |rows| <==> j < |after|) && (i < |rows| ==> after[j] == rows[i])
  {
    var i := RowAt(rows, key);
    if i < |rows| {
      assert after[i] == rows[i];
      RowAtUnique(after, i);
    } else {
      forall j | 0 <= j < |after| ensures RowKey(after[j]) != key {
        if j != at {
          assert after[j] == rows[j];
        }
      }
    }
  }

  lemma OutsideProfile(rows: seq<Row>, external: string, email: string, first: string, last: string,
      source: string, key: Key, field: string)
    requires OneRowPerKey(rows)
    ensures ProfileAt(Next(rows, FromOutside(external, email, first, last, source)), key, field) ==
            ProfileAt(rows, key, field)
  {
    var out := SubmitExternal(rows, external, email, first, last, source);
    SubmitExternalKeepsKeys(rows, external, email, first, last, source);
    if out.Stored? && out.created {
      if key == External(external) {
        RowAtUnique(out.rows, out.at);
        assert forall j :: 0 <= j < |rows| ==> RowKey(rows[j]) != key;
      } else {
        OthersKeep(rows, out.rows, out.at, key);
      }
    }
  }

  lemma ProgressProfile(rows: seq<Row>, i: nat, status: Status, key: Key, field: string)
    requires OneRowPerKey(rows) && i < |rows|
    ensures ProfileAt(rows[i := rows[i].(status := status)], key, field) == ProfileAt(rows, key, field)
  {
    var after := rows[i := rows[i].(status := status)];
    NextKeepsKeys(rows, Progress(i, status));
    if key == RowKey(rows[i]) {
      RowAtUnique(rows, i);
      RowAtUnique(after, i);
    } else {
      OthersKeep(rows, after, i, key);
    }
  }

  /** One row per local email and per external reference, and each row's profile
      is, field by field, the last non-blank value given for its key. */
  lemma {:induction false} ProfileIsLastSupplied(steps: seq<Step>, key: Key, field: string)
    requires forall k :: 0 <= k < |steps| ==> NamesReference(steps[k])
    ensures OneRowPerKey(Run([], steps))
    ensures ProfileAt(Run([], steps), key, field) == LastSupplied(steps, key, field)
  {
    if steps != [] {
      var init := steps[..|steps| - 1];
      var rows, last := Run([], init), steps[|steps| - 1];
      ProfileIsLastSupplied(init, key, field);
      NextKeepsKeys(rows, last);
      match last {
        case Apply(a) =>
          assert NamesReference(last);
          if TrackAllowed(a) { SubmitProfile(rows, a, key, field); }
        case FromOutside(external, email, first, last, source) =>
          OutsideProfile(rows, external, email, first, last, source, key, field);
        case Progress(i, status) =>
          if i < |rows| { ProgressProfile(rows, i, status, key, field); }
      }
    }
  }

  // ---- The whole row ----

  /** The questions the application form may answer. */
  predicate ProfileField(f: string) {
    f in {"date_of_birth", "state", "city", "highest_qualification", "field_of_study", "years_experience",
          "current_role", "has_device", "has_internet", "can_work_at_height", "available_from", "heard_from",
          "cv_url"}
  }

  predicate Told(form: Option<Form>, f: string) {
    ProfileField(f) && form.Some? && f in form.value && form.value[f].Some?
  }

  function Nonblank(text: Option<string>, kept: Option<string>): Option<string> {
    if text.None? || text.value == "" then kept else text
  }

  function Latest<T>(given: Option<T>, kept: Option<T>): Option<T> { if given.Some? then given else kept }

  /** The program asked for: the name of the selected track, or the text given. */
  function Asked(a: Application): Option<string>
    requires TrackAllowed(a)
  {
    if a.track.Some? then Some(a.tracks[(a.cohort.value, a.track.value)]) else a.program
  }

  /** What an application makes of a candidate's row, if there is one, except for
      the profile. */
  function Updated(row: Option<Row>, a: Application): Row
    requires TrackAllowed(a)
  {
    match row
    case None => Row(a.email, a.external, a.first, a.last, Nonblank(a.phone, None), Nonblank(Asked(a), None),
                     a.cohort, a.track, Applied, a.source, map[])
    case Some(r) => r.(first := a.first, last := a.last, phone := Nonblank(a.phone, r.phone),
                       program := Nonblank(Asked(a), r.program), cohort := Latest(a.cohort, r.cohort),
                       track := Latest(a.track, r.track))
  }

  /** The row of a key in the table, its profile aside: it is told by the steps about
      that key alone. */
  function History(steps: seq<Step>, key: Key): Option<Row> {
    if steps == [] then None
    else
      var init := steps[..|steps| - 1];
      var before := History(init, key);
      match steps[|steps| - 1]
      case Apply(a) =>
        if TrackAllowed(a) && KeyOf(a.email, a.external) == key then Some(Updated(before, a)) else before
      case FromOutside(external, email, first, last, source) =>
        if key == External(external) && before.None?
        then Some(Row(email, Some(external), first, last, None, None, None, None, Applied, source, map[]))
        else before
      case Progress(i, status) =>
        if before.Some? && i < |Run([], init)| && RowKey(Run([], init)[i]) == key
        then Some(before.value.(status := status)) else before
  }

  function BareAt(rows: seq<Row>, key: Key): Option<Row> {
    var i := RowAt(rows, key);
    if i < |rows| then Some(rows[i].(profile := map[])) else None
  }

  lemma StoredRow(rows: seq<Row>, a: Application)
    requires TrackAllowed(a) && Submit(rows, a).Stored?
    ensures var out := Submit(rows, a);
            && out.at < |out.rows| && (out.created ==> out.at == |rows|) && (!out.created ==> out.at < |rows|)
            && out.rows[out.at].(profile := map[]) ==
               Updated(if out.created then None else Some(rows[out.at].(profile := map[])), a)
  {
  }

  lemma ApplyRow(rows: seq<Row>, a: Application, key: Key)
    requires OneRowPerKey(rows) && a.external != Some("") && TrackAllowed(a)
    ensures Submit(rows, a).Stored?
    ensures BareAt(Submit(rows, a).rows, key) ==
            if key == KeyOf(a.email, a.external) then Some(Updated(BareAt(rows, key), a)) else BareAt(rows, key)
  {
    RefusedIff(rows, a);
    SubmitKeepsKeys(rows, a);
    StoredRow(rows, a);
    var out := Submit(rows, a);
    if key != KeyOf(a.email, a.external) {
      OthersKeep(rows, out.rows, out.at, key);
    } else {
      RowAtUnique(out.rows, out.at);
      if out.created {
        assert RowAt(rows, key) == |rows|;
      } else {
        assert RowKey(rows[out.at]) == key;
        RowAtUnique(rows, out.at);
      }
    }
  }

  lemma OutsideRow(rows: seq<Row>, step: Step, key: Key)
    requires OneRowPerKey(rows) && step.FromOutside?
    ensures BareAt(Next(rows, step), key) ==
            if key == External(step.external) && BareAt(rows, key).None?
            then Some(Row(step.email, Some(step.external), step.first, step.last, None, None, None, None, Applied,
                          step.source, map[]))
            else BareAt(rows, key)
  {
    var out := SubmitExternal(rows, step.external, step.email, step.first, step.last, step.source);
    SubmitExternalKeepsKeys(rows, step.external, step.email, step.first, step.last, step.source);
    if out.Stored? && out.created {
      if key == External(step.external) {
        RowAtUnique(out.rows, out.at);
        assert forall j :: 0 <= j < |rows| ==> RowKey(rows[j]) != key;
      } else {
        OthersKeep(rows, out.rows, out.at, key);
      }
    } else if out.Refused? {
      var i :| 0 <= i < |rows| && RowKey(rows[i]) == External(step.external) && rows[i].email != step.email;
      RowAtUnique(rows, i);
    }
  }

  lemma ProgressRow(rows: seq<Row>, i: nat, status: Status, key: Key)
    requires OneRowPerKey(rows) && i < |rows|
    ensures BareAt(rows[i := rows[i].(status := status)], key) ==
            if RowKey(rows[i]) == key then Some(BareAt(rows, key).value.(status := status)) else BareAt(rows, key)
  {
    var after := rows[i := rows[i].(status := status)];
    NextKeepsKeys(rows, Progress(i, status));
    if key == RowKey(rows[i]) {
      RowAtUnique(rows, i);
      RowAtUnique(after, i);
    } else {
      OthersKeep(rows, after, i, key);
    }
  }

  /** The answers that count are the non-null ones to the form's own questions. */
  lemma SuppliedIsTold(form: Option<Form>, f: string)
    ensures Supplied(form, f) == if Told(form, f) then form.value[f] else None
  {
    QuestionsAre(f);
  }

  lemma QuestionsAre(f: string)
    ensures f in PROFILE_FIELDS <==> ProfileField(f)
  {
    if ProfileField(f) {
      assert PROFILE_FIELDS[0] == "date_of_birth" && PROFILE_FIELDS[1] == "state" && PROFILE_FIELDS[2] == "city";
      assert PROFILE_FIELDS[3] == "highest_qualification" && PROFILE_FIELDS[4] == "field_of_study";
      assert PROFILE_FIELDS[5] == "years_experience" && PROFILE_FIELDS[6] == "current_role";
      assert PROFILE_FIELDS[7] == "has_device" && PROFILE_FIELDS[8] == "has_internet";
      assert PROFILE_FIELDS[9] == "can_work_at_height" && PROFILE_FIELDS[10] == "available_from";
      assert PROFILE_FIELDS[11] == "heard_from" && PROFILE_FIELDS[12] == "cv_url";
    }
  }

  /** Over every serial mix: each key has at most one row, which exists exactly when
      the steps about that key made one, and holds what they told: the last names,
      the last non-blank phone and program, the last cohort and track, and the
      status last set. */
  lemma {:induction false} RowIsHistory(steps: seq<Step>, key: Key)
    requires forall k :: 0 <= k < |steps| ==> NamesReference(steps[k])
    ensures OneRowPerKey(Run([], steps))
    ensures BareAt(Run([], steps), key) == History(steps, key)
  {
    if steps != [] {
      var init := steps[..|steps| - 1];
      var rows, last := Run([], init), steps[|steps| - 1];
      RowIsHistory(init, key);
      NextKeepsKeys(rows, last);
      match last {
        case Apply(a) =>
          assert NamesReference(last);
          if TrackAllowed(a) { ApplyRow(rows, a, key); }
        case FromOutside(_, _, _, _, _) => OutsideRow(rows, last, key);
        case Progress(i, status) =>
          if i < |rows| { ProgressRow(rows, i, status, key); }
      }
    }
  }
}
