/**
 * The host-application form: the field rules, the editable lists of
 * experiences and proof links, the redirect away from the form while an
 * application is pending, and the submitted row.
 *
 * Every rule is checked and every failure reported; the page shows, per
 * top-level field, the message of the last failure on that field.
 */
module ApplyHost {
  import opened Js
  import opened Store

  /** The top-level fields of the form, the keys of its error messages. */
  datatype Field = Bio | TeachIdeas | Experiences | ProofLinks

  /** One failed rule: the top-level field it is under, and its message. */
  datatype Issue = Issue(field: Field, message: string)

  datatype HostForm = HostForm(bio: string, teachIdeas: string, experiences: seq<Experience>, proofLinks: seq<ProofLink>)

  const BioMessage := "Please write at least 2–3 sentences."
  const IdeasMessage := "Please include 2–3 example class ideas with outcomes."
  const NameMessage := "Experience name is required"
  const YearsMessage := "Years should be a number"
  const LinkLabelMessage := "Link name is required"
  const UrlMessage := "Please enter a valid URL"

  /** `/^\d+$/`: one or more ASCII digits and nothing else. */
  predicate IsDigits(s: string) {
    |s| >= 1 && forall i :: 0 <= i < |s| ==> '0' <= s[i] <= '9'
  }

  /** The failures of one experience row, name first. */
  function ExperienceRowIssues(e: Experience): seq<Issue> {
    (if e.name == [] then [Issue(Experiences, NameMessage)] else [])
    + (if !IsDigits(e.years) then [Issue(Experiences, YearsMessage)] else [])
  }

  function ExperienceIssues(rows: seq<Experience>): seq<Issue>
    decreases |rows|
  {
    if rows == [] then [] else ExperienceRowIssues(rows[0]) + ExperienceIssues(rows[1..])
  }

  /** The failures of one link row, label first; `urlOk` is the URL check of the validation library. */
  function LinkRowIssues(l: ProofLink, urlOk: string -> bool): seq<Issue> {
    (if l.linkLabel == [] then [Issue(ProofLinks, LinkLabelMessage)] else [])
    + (if !urlOk(l.url) then [Issue(ProofLinks, UrlMessage)] else [])
  }

  function LinkIssues(rows: seq<ProofLink>, urlOk: string -> bool): seq<Issue>
    decreases |rows|
  {
    if rows == [] then [] else LinkRowIssues(rows[0], urlOk) + LinkIssues(rows[1..], urlOk)
  }

  /** `hostApplicationSchema.safeParse(formData)`: every failure, in the order of the schema. */
  function Issues(form: HostForm, urlOk: string -> bool): seq<Issue> {
    (if Utf16Length(form.bio) < 30 then [Issue(Bio, BioMessage)] else [])
    + (if Utf16Length(form.teachIdeas) < 30 then [Issue(TeachIdeas, IdeasMessage)] else [])
    + ExperienceIssues(form.experiences)
    + LinkIssues(form.proofLinks, urlOk)
  }

  /** The message shown for field `f`: that of the last failure on `f`, if any. */
  function ErrorFor(issues: seq<Issue>, f: Field): (r: Option<string>)
    ensures r.None? <==> forall i :: 0 <= i < |issues| ==> issues[i].field != f
    ensures r.Some? ==> exists i :: (0 <= i < |issues| && issues[i] == Issue(f, r.value)
      && forall j :: i < j < |issues| ==> issues[j].field != f)
    decreases |issues|
  {
    if issues == [] then None
    else if issues[|issues| - 1].field == f then Some(issues[|issues| - 1].message)
    else ErrorFor(issues[..|issues| - 1], f)
  }

  /** The `forEach` that files each failure's message under its field; a later one overwrites. */
  method FieldErrors(issues: seq<Issue>) returns (errors: map<Field, string>)
    ensures forall f :: f in errors <==> ErrorFor(issues, f).Some?
    ensures forall f :: f in errors ==> errors[f] == ErrorFor(issues, f).value
  {
    errors := map[];
    var k := 0;
    while k < |issues|
      invariant 0 <= k <= |issues|
      invariant forall f :: f in errors <==> ErrorFor(issues[..k], f).Some?
      invariant forall f :: f in errors ==> errors[f] == ErrorFor(issues[..k], f).value
    {
      assert issues[..k + 1][..k] == issues[..k];
      errors := errors[issues[k].field := issues[k].message];
      k := k + 1;
    }
    assert issues[..k] == issues;
  }

  // ---------------------------------------------------------------------------
  // The editable rows

  datatype ExperienceKey = NameKey | YearsKey
  datatype LinkKey = LabelKey | UrlKey

  const BlankExperience := Experience("", "")
  const BlankLink := ProofLink("", "")

  /** `addExperienceRow`. */
  function AddExperienceRow(rows: seq<Experience>): (r: seq<Experience>)
    ensures |r| == |rows| + 1 && r[..|rows|] == rows && r[|rows|] == BlankExperience
  {
    rows + [BlankExperience]
  }

  /** `addLinkRow`. */
  function AddLinkRow(rows: seq<ProofLink>): (r: seq<ProofLink>)
    ensures |r| == |rows| + 1 && r[..|rows|] == rows && r[|rows|] == BlankLink
  {
    rows + [BlankLink]
  }

  /** `updateExperienceRow`; the page passes only the index of a row it shows. */
  function UpdateExperienceRow(rows: seq<Experience>, index: nat, key: ExperienceKey, value: string): (r: seq<Experience>)
    requires index < |rows|
    ensures |r| == |rows|
    ensures forall i :: 0 <= i < |rows| && i != index ==> r[i] == rows[i]
    ensures key == NameKey ==> r[index].name == value && r[index].years == rows[index].years
    ensures key == YearsKey ==> r[index].years == value && r[index].name == rows[index].name
  {
    rows[index := if key == NameKey then rows[index].(name := value) else rows[index].(years := value)]
  }

  /** `updateLinkRow`; the page passes only the index of a row it shows. */
  function UpdateLinkRow(rows: seq<ProofLink>, index: nat, key: LinkKey, value: string): (r: seq<ProofLink>)
    requires index < |rows|
    ensures |r| == |rows|
    ensures forall i :: 0 <= i < |rows| && i != index ==> r[i] == rows[i]
    ensures key == LabelKey ==> r[index].linkLabel == value && r[index].url == rows[index].url
    ensures key == UrlKey ==> r[index].url == value && r[index].linkLabel == rows[index].linkLabel
  {
    rows[index := if key == LabelKey then rows[index].(linkLabel := value) else rows[index].(url := value)]
  }

  /** `splice(index, 1)` on a copy: drops the row at `index`; an index past the end changes nothing. */
  function RemoveRow<T>(rows: seq<T>, index: nat): (r: seq<T>)
    ensures index >= |rows| ==> r == rows
    ensures index < |rows| ==> (|r| == |rows| - 1
      && (forall i :: 0 <= i < index ==> r[i] == rows[i])
      && (forall i :: index <= i < |r| ==> r[i] == rows[i + 1]))
  {
    if index < |rows| then rows[..index] + rows[index + 1..] else rows
  }

  // ---------------------------------------------------------------------------
  // Redirect and submit

  datatype EntryOutcome = ToAuth | ToProfile | StayOnForm

  /** `checkExistingApplication`: a user whose latest application is pending is sent to the profile. */
  function EntryCheck(user: Option<Id>, apps: seq<ApplicationRow>): EntryOutcome {
    if user.None? then ToAuth
    else
      var latest := LatestApplication(apps, user.value);
      if latest.Some? && latest.value.status == Pending then ToProfile else StayOnForm
  }

  /** The row `handleSubmit` inserts; the data service assigns `id` and `submitted_at`. */
  function SubmittedRow(form: HostForm, userId: Id, newId: Id, now: Timestamp): ApplicationRow {
    ApplicationRow(newId, userId, Pending, now, None, form.bio, form.teachIdeas,
      if |form.experiences| > 0 then Some(form.experiences) else None,
      if |form.proofLinks| > 0 then Some(form.proofLinks) else None,
      None)
  }

  datatype SubmitOutcome = InvalidForm | NotAuthenticated | SubmitFailed | Submitted

  datatype Run = Run(outcome: SubmitOutcome, writes: seq<Write>)

  /** `handleSubmit`: validation first, then the session, then one insert. */
  function SubmitRun(form: HostForm, urlOk: string -> bool, user: Option<Id>, newId: Id, now: Timestamp, fails: bool): Run {
    if Issues(form, urlOk) != [] then Run(InvalidForm, [])
    else if user.None? then Run(NotAuthenticated, [])
    else if fails then Run(SubmitFailed, [])
    else Run(Submitted, [InsertApplication(SubmittedRow(form, user.value, newId, now))])
  }

  /** The form page's own state: what has been typed, and the messages shown per field. */
  class HostApplicationPage {
    var form: HostForm
    var errors: map<Field, string>

    constructor ()
      ensures form == HostForm("", "", [], []) && errors == map[]
    {
      form := HostForm("", "", [], []);
      errors := map[];
    }

    method AddExperience()
      modifies this
      ensures form == old(form).(experiences := AddExperienceRow(old(form).experiences))
      ensures errors == old(errors)
    {
      form := form.(experiences := AddExperienceRow(form.experiences));
    }

    method EditExperience(index: nat, key: ExperienceKey, value: string)
      requires index < |form.experiences|
      modifies this
      ensures form == old(form).(experiences := UpdateExperienceRow(old(form).experiences, index, key, value))
      ensures errors == old(errors)
    {
      form := form.(experiences := UpdateExperienceRow(form.experiences, index, key, value));
    }

    method RemoveExperience(index: nat)
      modifies this
      ensures form == old(form).(experiences := RemoveRow(old(form).experiences, index))
      ensures errors == old(errors)
    {
      form := form.(experiences := RemoveRow(form.experiences, index));
    }

    method AddLink()
      modifies this
      ensures form == old(form).(proofLinks := AddLinkRow(old(form).proofLinks))
      ensures errors == old(errors)
    {
      form := form.(proofLinks := AddLinkRow(form.proofLinks));
    }

    method EditLink(index: nat, key: LinkKey, value: string)
      requires index < |form.proofLinks|
      modifies this
      ensures form == old(form).(proofLinks := UpdateLinkRow(old(form).proofLinks, index, key, value))
      ensures errors == old(errors)
    {
      form := form.(proofLinks := UpdateLinkRow(form.proofLinks, index, key, value));
    }

    method RemoveLink(index: nat)
      modifies this
      ensures form == old(form).(proofLinks := RemoveRow(old(form).proofLinks, index))
      ensures errors == old(errors)
    {
      form := form.(proofLinks := RemoveRow(form.proofLinks, index));
    }

    /**
     * `handleSubmit`: clears the messages, and on a failed validation shows
     * the message per field and sends nothing.
     */
    method Submit(db: Backend, urlOk: string -> bool, user: Option<Id>, newId: Id, now: Timestamp, fails: bool)
      returns (o: SubmitOutcome)
      modifies this, db
      ensures o == SubmitRun(old(form), urlOk, user, newId, now, fails).outcome
      ensures db.State() == ApplyAll(old(db.State()), SubmitRun(old(form), urlOk, user, newId, now, fails).writes)
      ensures form == old(form)
      ensures forall f :: f in errors <==> ErrorFor(Issues(form, urlOk), f).Some?
      ensures forall f :: f in errors ==> errors[f] == ErrorFor(Issues(form, urlOk), f).value
    {
      errors := map[];
      var issues := Issues(form, urlOk);
      if issues != [] {
        errors := FieldErrors(issues);
        return InvalidForm;
      }
      if user.None? {
        return NotAuthenticated;
      }
      var w := InsertApplication(SubmittedRow(form, user.value, newId, now));
      ghost var s0 := db.State();
      var ok := db.Perform(w, fails);
      if !ok {
        return SubmitFailed;
      }
      ApplyAllAppend(s0, [], w);
      assert [] + [w] == [w];
      o := Submitted;
    }
  }

  // ---------------------------------------------------------------------------

  lemma {:induction false} ExperienceIssuesEmptyIff(rows: seq<Experience>)
    ensures ExperienceIssues(rows) == [] <==> forall i :: 0 <= i < |rows| ==> rows[i].name != [] && IsDigits(rows[i].years)
    decreases |rows|
  {
    if rows != [] {
      ExperienceIssuesEmptyIff(rows[1..]);
      assert forall i :: 1 <= i < |rows| ==> rows[i] == rows[1..][i - 1];
    }
  }

  lemma {:induction false} LinkIssuesEmptyIff(rows: seq<ProofLink>, urlOk: string -> bool)
    ensures LinkIssues(rows, urlOk) == [] <==> forall i :: 0 <= i < |rows| ==> rows[i].linkLabel != [] && urlOk(rows[i].url)
    decreases |rows|
  {
    if rows != [] {
      LinkIssuesEmptyIff(rows[1..], urlOk);
      assert forall i :: 1 <= i < |rows| ==> rows[i] == rows[1..][i - 1];
    }
  }

  /**
   * The form passes exactly when the bio and the ideas have at least 30
   * characters, every experience has a name and a whole number of years, and
   * every link has a label and a URL the URL check accepts.
   */
  lemma ValidIff(form: HostForm, urlOk: string -> bool)
    ensures Issues(form, urlOk) == [] <==>
      && Utf16Length(form.bio) >= 30 && Utf16Length(form.teachIdeas) >= 30
      && (forall i :: 0 <= i < |form.experiences| ==> form.experiences[i].name != [] && IsDigits(form.experiences[i].years))
      && (forall i :: 0 <= i < |form.proofLinks| ==> form.proofLinks[i].linkLabel != [] && urlOk(form.proofLinks[i].url))
  {
    ExperienceIssuesEmptyIff(form.experiences);
    LinkIssuesEmptyIff(form.proofLinks, urlOk);
  }

  lemma {:induction false} ExperienceIssuesAppend(xs: seq<Experience>, ys: seq<Experience>)
    ensures ExperienceIssues(xs + ys) == ExperienceIssues(xs) + ExperienceIssues(ys)
    decreases |xs|
  {
    if xs != [] {
      assert (xs + ys)[1..] == xs[1..] + ys;
      ExperienceIssuesAppend(xs[1..], ys);
    } else {
      assert xs + ys == ys;
    }
  }

  /** Every failure of an experience row is filed under "experiences". */
  lemma {:induction false} ExperienceIssuesField(rows: seq<Experience>)
    ensures forall i :: 0 <= i < |ExperienceIssues(rows)| ==> ExperienceIssues(rows)[i].field == Experiences
    decreases |rows|
  {
    if rows != [] {
      ExperienceIssuesField(rows[1..]);
    }
  }

  /** Every failure of a link row is filed under "proofLinks". */
  lemma {:induction false} LinkIssuesField(rows: seq<ProofLink>, urlOk: string -> bool)
    ensures forall i :: 0 <= i < |LinkIssues(rows, urlOk)| ==> LinkIssues(rows, urlOk)[i].field == ProofLinks
    decreases |rows|
  {
    if rows != [] {
      LinkIssuesField(rows[1..], urlOk);
    }
  }

  /**
   * A freshly added experience row (empty name, empty years) fails both of
   * its rules, so the form cannot pass, and the message shown for the
   * experiences is the later one, about the years.
   */
  lemma FreshExperienceRowFails(form: HostForm, urlOk: string -> bool)
    ensures var f := form.(experiences := AddExperienceRow(form.experiences));
      Issues(f, urlOk) != [] && ErrorFor(Issues(f, urlOk), Experiences) == Some(YearsMessage)
  {
    var f := form.(experiences := AddExperienceRow(form.experiences));
    BlankRowIssues(form.experiences);
    var head := (if Utf16Length(f.bio) < 30 then [Issue(Bio, BioMessage)] else [])
      + (if Utf16Length(f.teachIdeas) < 30 then [Issue(TeachIdeas, IdeasMessage)] else [])
      + ExperienceIssues(form.experiences) + [Issue(Experiences, NameMessage)];
    var tail := LinkIssues(f.proofLinks, urlOk);
    assert Issues(f, urlOk) == head + [Issue(Experiences, YearsMessage)] + tail;
    LinkIssuesField(f.proofLinks, urlOk);
    LaterIssueWins(head, Issue(Experiences, YearsMessage), tail);
  }

  /** A blank experience row adds its two failures, name then years, after the others. */
  lemma BlankRowIssues(rows: seq<Experience>)
    ensures ExperienceIssues(AddExperienceRow(rows))
      == ExperienceIssues(rows) + [Issue(Experiences, NameMessage), Issue(Experiences, YearsMessage)]
  {
    ExperienceIssuesAppend(rows, [BlankExperience]);
    assert [BlankExperience][1..] == [];
  }

  /** An issue followed only by issues on other fields is the one whose message is shown. */
  lemma LaterIssueWins(head: seq<Issue>, x: Issue, tail: seq<Issue>)
    requires forall j :: 0 <= j < |tail| ==> tail[j].field != x.field
    ensures ErrorFor(head + [x] + tail, x.field) == Some(x.message)
  {
    var all := head + [x] + tail;
    var k := |head|;
    assert forall j :: k < j < |all| ==> all[j] == tail[j - k - 1];
    ErrorForLast(all, k, x.field);
  }

  /** The message shown for `f` is that of an issue on `f` with none on `f` after it. */
  lemma {:induction false} ErrorForLast(issues: seq<Issue>, k: nat, f: Field)
    requires k < |issues| && issues[k].field == f
    requires forall j :: k < j < |issues| ==> issues[j].field != f
    ensures ErrorFor(issues, f) == Some(issues[k].message)
    decreases |issues|
  {
    if k < |issues| - 1 {
      var init := issues[..|issues| - 1];
      assert forall j :: k < j < |init| ==> init[j] == issues[j];
      ErrorForLast(init, k, f);
    }
  }

  /** A form that fails validation is never sent, signed in or not. */
  lemma InvalidSendsNothing(form: HostForm, urlOk: string -> bool, user: Option<Id>, newId: Id, now: Timestamp, fails: bool)
    requires Issues(form, urlOk) != []
    ensures SubmitRun(form, urlOk, user, newId, now, fails) == Run(InvalidForm, [])
  {
  }

  /**
   * A valid form from a signed-in user adds one pending application with the
   * text as typed, and empty lists stored as null.
   */
  lemma {:induction false} SubmitInsertsPending(t: Tables, form: HostForm, urlOk: string -> bool, u: Id, newId: Id, now: Timestamp)
    requires Issues(form, urlOk) == []
    ensures var after := ApplyAll(t, SubmitRun(form, urlOk, Some(u), newId, now, false).writes);
      && |after.applications| == |t.applications| + 1
      && after.applications[..|t.applications|] == t.applications
      && var row := after.applications[|t.applications|];
      && row.userId == u && row.status == Pending && row.reviewedAt.None?
      && row.bio == form.bio && row.teachIdeas == form.teachIdeas
      && (row.experiences.None? <==> form.experiences == [])
      && (row.proofLinks.None? <==> form.proofLinks == [])
      && (row.experiences.Some? ==> row.experiences.value == form.experiences)
      && (row.proofLinks.Some? ==> row.proofLinks.value == form.proofLinks)
  {
    var w := InsertApplication(SubmittedRow(form, u, newId, now));
    ApplyAllAppend(t, [], w);
    assert [] + [w] == [w];
  }

  /** Adding a row and then removing that last row gives the list back. */
  lemma AddThenRemove(rows: seq<Experience>, links: seq<ProofLink>)
    ensures RemoveRow(AddExperienceRow(rows), |rows|) == rows
    ensures RemoveRow(AddLinkRow(links), |links|) == links
  {
  }

  /** The form is left for the profile exactly when the user's latest application is still pending. */
  lemma EntryRedirect(u: Id, apps: seq<ApplicationRow>)
    ensures EntryCheck(None, apps) == ToAuth
    ensures EntryCheck(Some(u), apps) == ToProfile <==>
      LatestApplication(apps, u).Some? && LatestApplication(apps, u).value.status == Pending
    ensures (forall i :: 0 <= i < |apps| ==> apps[i].userId != u) ==> EntryCheck(Some(u), apps) == StayOnForm
  {
  }
}
