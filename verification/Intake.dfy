/** The two intake rules: `submit_application` is idempotent on the email of a
    local application, or on its external reference when it has one, and
    `submit_external_application` on the external reference alone. */
module Intake {
  import opened Options
  import opened AdmissionsLedger

  datatype Value = Text(text: string) | Number(number: int) | Flag(flag: bool)

  const PROFILE_FIELDS := [
    "date_of_birth", "state", "city", "highest_qualification", "field_of_study", "years_experience",
    "current_role", "has_device", "has_internet", "can_work_at_height", "available_from", "heard_from", "cv_url"]

  type Profile = map<string, Value>
  type Form = map<string, Option<Value>>

  datatype Row = Row(
    email: string,
    external: Option<string>,
    first: string,
    last: string,
    phone: Option<string>,
    program: Option<string>,
    cohort: Option<Id>,
    track: Option<Id>,
    status: Status,
    source: string,
    profile: Profile)

  /** A call of `submit_application`; `tracks` are the active (cohort, track)
      pairs with the track's name. */
  datatype Application = Application(
    email: string,
    external: Option<string>,
    first: string,
    last: string,
    phone: Option<string>,
    program: Option<string>,
    cohort: Option<Id>,
    track: Option<Id>,
    source: string,
    form: Option<Form>,
    tracks: map<(Id, Id), string>)

  datatype Refusal = CohortRequired | TrackNotOpen | AlreadyExists | OtherEmail
  datatype Outcome = Stored(rows: seq<Row>, at: nat, created: bool) | Refused(refusal: Refusal)

  predicate Given(text: Option<string>) { text.Some? && text.value != "" }

  // ---- The pieces of submit_application ----

  function Answer(form: Option<Form>, field: string): Option<Value> {
    if form.None? || field !in form.value then None else form.value[field]
  }

  function Supplied(form: Option<Form>, field: string): Option<Value> {
    if field in PROFILE_FIELDS then Answer(form, field) else None
  }

  /** `_apply_profile`: supplied values replace, blanks keep. */
  function WithSupplied(profile: Profile, form: Option<Form>): Profile {
    WithAnswers(profile, form, PROFILE_FIELDS)
  }

  function WithAnswers(profile: Profile, form: Option<Form>, fields: seq<string>): Profile {
    map f | f in profile.Keys + Answered(form, fields) ::
      if f in fields && Answer(form, f).Some? then Answer(form, f).value else profile[f]
  }

  function Answered(form: Option<Form>, fields: seq<string>): set<string> {
    set f | f in fields && Answer(form, f).Some?
  }

  predicate TrackAllowed(a: Application) {
    a.track.Some? ==> a.cohort.Some? && (a.cohort.value, a.track.value) in a.tracks
  }

  function Program(a: Application): Option<string>
    requires TrackAllowed(a)
  {
    if a.track.Some? then Some(a.tracks[(a.cohort.value, a.track.value)]) else a.program
  }

  predicate Matches(row: Row, email: string, external: Option<string>) {
    if Given(external) then row.external == external else row.external.None? && row.email == email
  }

  function Find(rows: seq<Row>, email: string, external: Option<string>): (i: nat)
    ensures i <= |rows|
    ensures i < |rows| ==> Matches(rows[i], email, external)
    ensures forall j :: 0 <= j < i ==> !Matches(rows[j], email, external)
  {
    if rows == [] || Matches(rows[0], email, external) then 0 else 1 + Find(rows[1..], email, external)
  }

  function Refreshed(row: Row, a: Application): Row
    requires TrackAllowed(a)
  {
    row.(
      first := a.first,
      last := a.last,
      phone := if Given(a.phone) then a.phone else row.phone,
      program := if Given(Program(a)) then Program(a) else row.program,
      cohort := if a.cohort.Some? then a.cohort else row.cohort,
      track := if a.track.Some? then a.track else row.track,
      profile := WithSupplied(row.profile, a.form))
  }

  function NewRow(a: Application): Row
    requires TrackAllowed(a)
  {
    Row(a.email, a.external, a.first, a.last,
        if Given(a.phone) then a.phone else None,
        if Given(Program(a)) then Program(a) else None,
        a.cohort, a.track, Applied, a.source, WithSupplied(map[], a.form))
  }

  /** The unique index an insert would hit: local email or external reference. */
  predicate Clashes(rows: seq<Row>, email: string, external: Option<string>) {
    exists i :: 0 <= i < |rows| && rows[i].external == external && (external.Some? || rows[i].email == email)
  }

  function Submit(rows: seq<Row>, a: Application): Outcome {
    if a.track.Some? && a.cohort.None? then Refused(CohortRequired)
    else if !TrackAllowed(a) then Refused(TrackNotOpen)
    else
      var i := Find(rows, a.email, a.external);
      if i < |rows| then Stored(rows[i := Refreshed(rows[i], a)], i, false)
      else if Clashes(rows, a.email, a.external) then Refused(AlreadyExists)
      else Stored(rows + [NewRow(a)], |rows|, true)
  }

  /** `submit_external_application`: insert unless the reference exists, then
      compare the email of the row that has it. */
  function FindExternal(rows: seq<Row>, external: string): (i: nat)
    ensures i <= |rows|
    ensures i < |rows| ==> rows[i].external == Some(external)
    ensures forall j :: 0 <= j < i ==> rows[j].external != Some(external)
  {
    if rows == [] || rows[0].external == Some(external) then 0 else 1 + FindExternal(rows[1..], external)
  }

  function SubmitExternal(rows: seq<Row>, external: string, email: string, first: string, last: string,
      source: string): Outcome {
    var i := FindExternal(rows, external);
    if i == |rows| then
      Stored(rows + [Row(email, Some(external), first, last, None, None, None, None, Applied, source, map[])], i, true)
    else if rows[i].email != email then Refused(OtherEmail)
    else Stored(rows, i, false)
  }

  // ---- The table ----

  class Applicants {
    var rows: seq<Row>

    constructor ()
      ensures rows == []
    {
      rows := [];
    }

    method ApplyProfile(profile: Profile, form: Option<Form>, fields: seq<string>) returns (r: Profile)
      ensures r == WithAnswers(profile, form, fields)
    {
      r := profile;
      if form.None? || form.value == map[] { return; }
      var i := 0;
      while i < |fields|
        invariant i <= |fields|
        invariant r.Keys == profile.Keys + Answered(form, fields[..i])
        invariant forall f :: f in r ==>
          r[f] == if f in fields[..i] && Answer(form, f).Some? then Answer(form, f).value else profile[f]
      {
        var f := fields[i];
        assert fields[..i + 1] == fields[..i] + [f];
        if f in form.value && form.value[f].Some? {
          r := r[f := form.value[f].value];
        }
        i := i + 1;
      }
      assert fields[..i] == fields;
    }

    method SubmitApplication(a: Application) returns (out: Outcome)
      modifies this
      ensures out == Submit(old(rows), a)
      ensures rows == if out.Stored? then out.rows else old(rows)
    {
      var program := a.program;
      if a.track.Some? {
        if a.cohort.None? { return Refused(CohortRequired); }
        if (a.cohort.value, a.track.value) !in a.tracks { return Refused(TrackNotOpen); }
        program := Some(a.tracks[(a.cohort.value, a.track.value)]);
      }
      var i := 0;
      while i < |rows| && !Matches(rows[i], a.email, a.external)
        invariant i <= |rows|
        invariant forall j :: 0 <= j < i ==> !Matches(rows[j], a.email, a.external)
      {
        i := i + 1;
      }
      assert i == Find(rows, a.email, a.external);
      if i < |rows| {
        var row := rows[i].(first := a.first, last := a.last);
        if Given(a.phone) { row := row.(phone := a.phone); }
        if Given(program) { row := row.(program := program); }
        if a.cohort.Some? { row := row.(cohort := a.cohort); }
        if a.track.Some? { row := row.(track := a.track); }
        var profile := ApplyProfile(row.profile, a.form, PROFILE_FIELDS);
        rows := rows[i := row.(profile := profile)];
        return Stored(rows, i, false);
      }
      if Clashes(rows, a.email, a.external) { return Refused(AlreadyExists); }
      var profile := ApplyProfile(map[], a.form, PROFILE_FIELDS);
      var phone := if Given(a.phone) then a.phone else None;
      if !Given(program) { program := None; }
      rows := rows + [Row(a.email, a.external, a.first, a.last, phone, program, a.cohort, a.track, Applied,
          a.source, profile)];
      out := Stored(rows, i, true);
    }

    method SubmitExternalApplication(external: string, email: string, first: string, last: string,
        source: string) returns (out: Outcome)
      modifies this
      ensures out == SubmitExternal(old(rows), external, email, first, last, source)
      ensures rows == if out.Stored? then out.rows else old(rows)
    {
      var i := 0;
      while i < |rows| && rows[i].external != Some(external)
        invariant i <= |rows|
        invariant forall j :: 0 <= j < i ==> rows[j].external != Some(external)
      {
        i := i + 1;
      }
      assert i == FindExternal(rows, external);
      var created := i == |rows|;
      if created {
        rows := rows + [Row(email, Some(external), first, last, None, None, None, None, Applied, source, map[])];
      }
      if rows[i].email != email { return Refused(OtherEmail); }
      out := Stored(rows, i, created);
    }
  }

  // ---- Identity ----

  datatype Key = Local(email: string) | External(ref: string)

  function KeyOf(email: string, external: Option<string>): Key {
    if external.Some? then External(external.value) else Local(email)
  }

  function RowKey(row: Row): Key { KeyOf(row.email, row.external) }

  ghost predicate OneRowPerKey(rows: seq<Row>) {
    forall i, j :: 0 <= i < j < |rows| ==> RowKey(rows[i]) != RowKey(rows[j])
  }

  /** The unique indexes hold after every submission, and an accepted submission
      with an absent or non-empty reference lands on the one row of its key. */
  lemma SubmitKeepsKeys(rows: seq<Row>, a: Application)
    requires OneRowPerKey(rows) && Submit(rows, a).Stored?
    ensures OneRowPerKey(Submit(rows, a).rows)
    ensures Submit(rows, a).at < |Submit(rows, a).rows|
    ensures a.external != Some("") ==> RowKey(Submit(rows, a).rows[Submit(rows, a).at]) == KeyOf(a.email, a.external)
    ensures a.external != Some("") ==>
              (Submit(rows, a).created <==>
                forall i :: 0 <= i < |rows| ==> RowKey(rows[i]) != KeyOf(a.email, a.external))
  {
    var i := Find(rows, a.email, a.external);
    if i == |rows| {
      forall j | 0 <= j < |rows| ensures RowKey(rows[j]) != RowKey(NewRow(a)) {
        assert !Matches(rows[j], a.email, a.external);
      }
    }
  }

  lemma SubmitExternalKeepsKeys(rows: seq<Row>, external: string, email: string, first: string, last: string,
      source: string)
    requires OneRowPerKey(rows)
    ensures var out := SubmitExternal(rows, external, email, first, last, source);
            && (out.Stored? ==>
                  OneRowPerKey(out.rows) && out.at < |out.rows| && RowKey(out.rows[out.at]) == External(external))
            && (out.Refused? <==>
                  exists i :: 0 <= i < |rows| && RowKey(rows[i]) == External(external) && rows[i].email != email)
  {
    var i := FindExternal(rows, external);
    if i < |rows| {
      forall j | 0 <= j < |rows| && RowKey(rows[j]) == External(external) ensures j == i {
      }
    }
  }

  /** With an absent or non-empty reference a serial submission is refused only
      for its track. An empty-string reference is looked up as a local email but
      stored as a reference, so a second one is refused. */
  lemma RefusedIff(rows: seq<Row>, a: Application)
    ensures Submit(rows, a) == Refused(AlreadyExists) <==>
            TrackAllowed(a) && a.external == Some("")
            && (forall i :: 0 <= i < |rows| ==> !(rows[i].external.None? && rows[i].email == a.email))
            && (exists i :: 0 <= i < |rows| && rows[i].external == Some(""))
  {
    var i := Find(rows, a.email, a.external);
    if TrackAllowed(a) && i == |rows| && Clashes(rows, a.email, a.external) {
      var j :| 0 <= j < |rows| && rows[j].external == a.external && (a.external.Some? || rows[j].email == a.email);
      assert !Matches(rows[j], a.email, a.external);
    }
  }

  lemma EmptyReferenceTwice(a: Application)
    requires a.external == Some("") && TrackAllowed(a)
    ensures Submit([], a).Stored? && Submit(Submit([], a).rows, a) == Refused(AlreadyExists)
  {
    RefusedIff([], a);
    assert Submit([], a).rows[0].external == Some("");
    RefusedIff(Submit([], a).rows, a);
  }
}
