/**
 * The class-creation page: only verified hosts reach the form; a submitted
 * class must pass eight rules, and the first failing rule's message is shown;
 * a created class always costs 5 credits and seats 10, and takes its host,
 * city and country from the host's profile.
 */
module CreateClass {
  import opened Js
  import opened Store

  /** What the form holds; `duration` is the typed text already read as a whole number. */
  datatype ClassForm = ClassForm(
    title: string, description: string, category: string, address: string,
    date: string, time: string, duration: int)

  const FixedCost := 5
  const FixedCapacity := 10

  /** One rule of `classSchema`: whether the form passes it, and its message. */
  datatype Rule = Rule(passes: bool, message: string)

  /** The rules of `classSchema`, in the order it checks them. */
  function Rules(form: ClassForm): seq<Rule> {
    [ Rule(Utf16Length(form.title) >= 5, "Title must be at least 5 characters"),
      Rule(Utf16Length(form.description) >= 20, "Description must be at least 20 characters"),
      Rule(Utf16Length(form.category) >= 1, "Please select a category"),
      Rule(Utf16Length(form.address) >= 5, "Address is required"),
      Rule(Utf16Length(form.date) >= 1, "Date is required"),
      Rule(Utf16Length(form.time) >= 1, "Time is required"),
      Rule(form.duration >= 1, "Duration must be at least 1 hour"),
      Rule(form.duration <= 8, "Duration cannot exceed 8 hours") ]
  }

  /** The messages of the failing rules, in order. */
  function Failures(rules: seq<Rule>): (r: seq<string>)
    ensures |r| <= |rules|
    decreases |rules|
  {
    if rules == [] then []
    else (if rules[0].passes then [] else [rules[0].message]) + Failures(rules[1..])
  }

  /** `classSchema.parse`: None when the form passes, else the first failure's message. */
  function Validate(form: ClassForm): Option<string> {
    var f := Failures(Rules(form));
    if f == [] then None else Some(f[0])
  }

  datatype GateOutcome = ToAuth | NotAuthorized | ShowForm

  /** `checkAuth`: no session goes to /auth; a profile not marked verified goes to /profile. */
  function HostGate(session: Option<Id>, profile: Option<ProfileRow>): GateOutcome {
    if session.None? then ToAuth
    else if profile.None? || profile.value.hostVerified != Some(true) then NotAuthorized
    else ShowForm
  }

  /** The row `handleSubmit` inserts; the data service assigns `id`. */
  function NewClassRow(form: ClassForm, profile: ProfileRow, newId: Id): ClassRow {
    ClassRow(newId, profile.id, form.title, form.description, form.category,
      profile.city, profile.country, form.address, form.date, form.time,
      form.duration, Some(FixedCost), Some(FixedCapacity))
  }

  datatype CreateOutcome = ValidationError(message: string) | CreateFailed | Created(classId: Id)

  datatype Run = Run(outcome: CreateOutcome, writes: seq<Write>)

  /** `handleSubmit`; the form is only shown once the host's profile is loaded. */
  function CreateRun(form: ClassForm, profile: ProfileRow, newId: Id, fails: bool): Run {
    var v := Validate(form);
    if v.Some? then Run(ValidationError(v.value), [])
    else if fails then Run(CreateFailed, [])
    else Run(Created(newId), [InsertClass(NewClassRow(form, profile, newId))])
  }

  method SubmitClass(db: Backend, form: ClassForm, profile: ProfileRow, newId: Id, fails: bool)
    returns (o: CreateOutcome)
    modifies db
    ensures o == CreateRun(form, profile, newId, fails).outcome
    ensures db.State() == ApplyAll(old(db.State()), CreateRun(form, profile, newId, fails).writes)
  {
    var v := Validate(form);
    if v.Some? {
      return ValidationError(v.value);
    }
    var w := InsertClass(NewClassRow(form, profile, newId));
    ghost var s0 := db.State();
    var ok := db.Perform(w, fails);
    if !ok {
      return CreateFailed;
    }
    ApplyAllAppend(s0, [], w);
    assert [] + [w] == [w];
    o := Created(newId);
  }

  // ---------------------------------------------------------------------------

  lemma {:induction false} FailuresEmptyIff(rules: seq<Rule>)
    ensures Failures(rules) == [] <==> forall i :: 0 <= i < |rules| ==> rules[i].passes
    decreases |rules|
  {
    if rules != [] {
      FailuresEmptyIff(rules[1..]);
      assert forall i :: 1 <= i < |rules| ==> rules[i] == rules[1..][i - 1];
    }
  }

  /** The first failure reported is that of the earliest failing rule. */
  lemma {:induction false} FirstFailure(rules: seq<Rule>, k: nat)
    requires k < |rules| && !rules[k].passes
    requires forall i :: 0 <= i < k ==> rules[i].passes
    ensures Failures(rules) != [] && Failures(rules)[0] == rules[k].message
    decreases k
  {
    if k > 0 {
      assert forall i :: 0 <= i < k - 1 ==> rules[1..][i] == rules[i + 1];
      FirstFailure(rules[1..], k - 1);
    }
  }

  /**
   * The form passes exactly when the title has at least 5 characters, the
   * description 20, the address 5, category, date and time are filled in and
   * the duration is a whole number of hours from 1 to 8.
   */
  lemma ValidIff(form: ClassForm)
    ensures Validate(form).None? <==>
      && Utf16Length(form.title) >= 5 && Utf16Length(form.description) >= 20
      && form.category != [] && Utf16Length(form.address) >= 5
      && form.date != [] && form.time != []
      && 1 <= form.duration <= 8
  {
    EightRules(Rules(form));
  }

  lemma EightRules(rs: seq<Rule>)
    requires |rs| == 8
    ensures Failures(rs) == [] <==>
      rs[0].passes && rs[1].passes && rs[2].passes && rs[3].passes && rs[4].passes && rs[5].passes && rs[6].passes && rs[7].passes
  {
    FailuresEmptyIff(rs);
    if rs[0].passes && rs[1].passes && rs[2].passes && rs[3].passes && rs[4].passes && rs[5].passes && rs[6].passes && rs[7].passes {
      assert forall i :: 0 <= i < |rs| ==> rs[i].passes;
    }
  }

  /** The message shown is that of the first rule, in schema order, that the form breaks. */
  lemma ShownMessageIsFirstBroken(form: ClassForm, k: nat)
    requires k < |Rules(form)| && !Rules(form)[k].passes
    requires forall i :: 0 <= i < k ==> Rules(form)[i].passes
    ensures Validate(form) == Some(Rules(form)[k].message)
  {
    FirstFailure(Rules(form), k);
  }

  /** A short title is reported first, whatever else is wrong. */
  lemma ShortTitleFirst(form: ClassForm)
    requires Utf16Length(form.title) < 5
    ensures Validate(form) == Some("Title must be at least 5 characters")
  {
    FirstFailure(Rules(form), 0);
  }

  /** A class that fails validation is not inserted. */
  lemma InvalidInsertsNothing(form: ClassForm, profile: ProfileRow, newId: Id, fails: bool)
    requires Validate(form).Some?
    ensures CreateRun(form, profile, newId, fails).writes == []
    ensures CreateRun(form, profile, newId, fails).outcome.ValidationError?
  {
  }

  /**
   * A created class is the form as typed plus the host's id, city and
   * country from the profile, with cost 5 and capacity 10; nothing else
   * changes.
   */
  lemma {:induction false} CreatedClassDefaults(t: Tables, form: ClassForm, profile: ProfileRow, newId: Id)
    requires Validate(form).None?
    ensures var after := ApplyAll(t, CreateRun(form, profile, newId, false).writes);
      && after == t.(classes := after.classes)
      && |after.classes| == |t.classes| + 1 && after.classes[..|t.classes|] == t.classes
      && var c := after.classes[|t.classes|];
      && c.costCredits == Some(5) && c.maxParticipants == Some(10)
      && c.hostId == profile.id && c.city == profile.city && c.country == profile.country
      && c.title == form.title && c.description == form.description && c.category == form.category
      && c.address == form.address && c.date == form.date && c.time == form.time
      && 1 <= c.duration <= 8
  {
    ValidIff(form);
    var w := InsertClass(NewClassRow(form, profile, newId));
    ApplyAllAppend(t, [], w);
    assert [] + [w] == [w];
  }

  /** Only a signed-in user whose profile is marked verified sees the form. */
  lemma GateOnlyVerified(session: Option<Id>, profile: Option<ProfileRow>)
    ensures session.None? ==> HostGate(session, profile) == ToAuth
    ensures HostGate(session, profile) == ShowForm <==> session.Some? && profile.Some? && profile.value.hostVerified == Some(true)
    ensures session.Some? && profile.Some? && profile.value.hostVerified.None? ==> HostGate(session, profile) == NotAuthorized
  {
  }
}
