/**
 * The profile page: the credits top-up, the list of joined classes, and which
 * queries the page issues for hosts and for everyone else.
 *
 * A top-up is 1 credit per whole £2 entered, at least £2. It rewrites only the
 * topped-up balance, from the value the page loaded, and then logs a "top_up"
 * transaction; neither request's result is looked at.
 */
module Profile {
  import opened Js
  import opened Store

  /**
   * What `prompt` gave back, already parsed: dismissed (null), an empty
   * string, or text that `parseFloat` read as a number (None: NaN).
   */
  datatype PromptReply = Dismissed | EmptyText | Entered(pounds: Option<real>)

  datatype TopUpOutcome = Ignored | InvalidAmount | ThrewNoProfile | CreditsAdded(added: int)

  datatype Run = Run(outcome: TopUpOutcome, writes: seq<Write>)

  /** `Math.floor(pounds / 2)`. */
  function CreditsFor(pounds: real): int {
    (pounds / 2.0).Floor
  }

  /** An amount the handler accepts: a number, and at least £2. */
  predicate Accepted(reply: PromptReply) {
    reply.Entered? && reply.pounds.Some? && reply.pounds.value >= 2.0
  }

  /**
   * `handleTopUp` on the page whose profile row is `profile` (None until the
   * row has loaded) and whose credits row is `cached`; the flags say which
   * request fails (neither failure is noticed). An accepted amount with no
   * profile throws at `profile.id` while the update is being built, so no
   * request is sent.
   */
  function TopUpRun(reply: PromptReply, profile: Option<ProfileRow>, cached: Option<CreditsRow>, updateFails: bool, logFails: bool): Run {
    if reply.Dismissed? || reply.EmptyText? then Run(Ignored, [])
    else if !Accepted(reply) then Run(InvalidAmount, [])
    else if profile.None? then Run(ThrewNoProfile, [])
    else
      var owner := profile.value.id;
      var added := CreditsFor(reply.pounds.value);
      var oldToppedUp := if cached.Some? then OrZero(cached.value.toppedUp) else 0;
      var update := UpdateCredits(owner, SetToppedUp(oldToppedUp + added));
      var log := InsertTransaction(TransactionRow(owner, TopUpTx, added, None));
      Run(CreditsAdded(added), (if updateFails then [] else [update]) + (if logFails then [] else [log]))
  }

  method TopUp(db: Backend, reply: PromptReply, profile: Option<ProfileRow>, cached: Option<CreditsRow>, updateFails: bool, logFails: bool)
    returns (o: TopUpOutcome)
    modifies db
    ensures o == TopUpRun(reply, profile, cached, updateFails, logFails).outcome
    ensures db.State() == ApplyAll(old(db.State()), TopUpRun(reply, profile, cached, updateFails, logFails).writes)
  {
    if reply.Dismissed? || reply.EmptyText? {
      return Ignored;
    }
    if !Accepted(reply) {
      return InvalidAmount;
    }
    var added := CreditsFor(reply.pounds.value);
    var oldToppedUp := if cached.Some? then OrZero(cached.value.toppedUp) else 0;
    if profile.None? {
      // TypeError reading `id` of null, before the request is sent
      return ThrewNoProfile;
    }
    var owner := profile.value.id;
    var update := UpdateCredits(owner, SetToppedUp(oldToppedUp + added));
    var log := InsertTransaction(TransactionRow(owner, TopUpTx, added, None));
    ghost var s0 := db.State();
    ghost var done: seq<Write> := [];
    var ok := db.Perform(update, updateFails);
    if ok {
      ApplyAllAppend(s0, [], update);
      done := [update];
    }
    // the log is inserted once the update has answered, whatever the answer
    ok := db.Perform(log, logFails);
    if ok {
      ApplyAllAppend(s0, done, log);
      done := done + [log];
    }
    assert done == (if updateFails then [] else [update]) + (if logFails then [] else [log]);
    o := CreditsAdded(added);
  }

  /** A class the user has joined, as the bookings query returns it (the class may be null). */
  datatype JoinedBooking = JoinedBooking(booking: BookingRow, cls: Option<ClassRow>)

  /** `bookings?.map(b => b.classes) || []`. */
  function JoinedClasses(bookings: Option<seq<JoinedBooking>>): (r: seq<Option<ClassRow>>)
    ensures bookings.None? ==> r == []
    ensures bookings.Some? ==> |r| == |bookings.value|
    ensures bookings.Some? ==> forall i :: 0 <= i < |r| ==> r[i] == bookings.value[i].cls
  {
    if bookings.None? then [] else ClassesOf(bookings.value)
  }

  function ClassesOf(bs: seq<JoinedBooking>): (r: seq<Option<ClassRow>>)
    ensures |r| == |bs|
    ensures forall i :: 0 <= i < |r| ==> r[i] == bs[i].cls
    decreases |bs|
  {
    if bs == [] then [] else [bs[0].cls] + ClassesOf(bs[1..])
  }

  /** The queries the page sends after the session check, in order. */
  datatype Query = ProfileQuery | CreditsQuery | HostedClassesQuery | JoinedClassesQuery | LatestApplicationQuery

  predicate IsVerifiedHost(profile: Option<ProfileRow>) {
    profile.Some? && profile.value.hostVerified == Some(true)
  }

  /** `fetchProfileData`: hosted classes for verified hosts, the latest application for everyone else. */
  function ProfileQueries(profile: Option<ProfileRow>): seq<Query> {
    [ProfileQuery, CreditsQuery]
    + (if IsVerifiedHost(profile) then [HostedClassesQuery] else [])
    + [JoinedClassesQuery]
    + (if !IsVerifiedHost(profile) then [LatestApplicationQuery] else [])
  }

  // ---------------------------------------------------------------------------

  /** A dismissed or empty prompt does nothing. */
  lemma NoInputNoWrite(profile: Option<ProfileRow>, cached: Option<CreditsRow>, f1: bool, f2: bool)
    ensures TopUpRun(Dismissed, profile, cached, f1, f2) == Run(Ignored, [])
    ensures TopUpRun(EmptyText, profile, cached, f1, f2) == Run(Ignored, [])
  {
  }

  /** NaN or less than £2: "Invalid amount", and nothing is written. */
  lemma InvalidAmountNoWrite(pounds: Option<real>, profile: Option<ProfileRow>, cached: Option<CreditsRow>, f1: bool, f2: bool)
    requires pounds.None? || pounds.value < 2.0
    ensures TopUpRun(Entered(pounds), profile, cached, f1, f2) == Run(InvalidAmount, [])
  {
  }

  /**
   * The handler throws before any request exactly when an accepted amount
   * meets a page whose profile has not loaded; then nothing is written.
   */
  lemma MissingProfileWritesNothing(reply: PromptReply, profile: Option<ProfileRow>, cached: Option<CreditsRow>, f1: bool, f2: bool)
    ensures TopUpRun(reply, profile, cached, f1, f2).outcome == ThrewNoProfile <==> Accepted(reply) && profile.None?
    ensures profile.None? ==> TopUpRun(reply, profile, cached, f1, f2).writes == []
  {
  }

  /** Every accepted amount buys at least one credit, one per whole £2: `2c <= pounds < 2c + 2`. */
  lemma CreditsForAccepted(pounds: real)
    requires pounds >= 2.0
    ensures CreditsFor(pounds) >= 1
    ensures 2.0 * (CreditsFor(pounds) as real) <= pounds < 2.0 * (CreditsFor(pounds) as real) + 2.0
  {
  }

  /**
   * An accepted top-up sets the topped-up balance to the loaded one (missing as 0)
   * plus the credits bought, leaves the teaching balance as the store had it,
   * and logs a "top_up" of the credits bought after the update.
   */
  lemma {:induction false} TopUpEffect(t: Tables, pounds: real, profile: ProfileRow, cached: Option<CreditsRow>)
    requires pounds >= 2.0 && profile.id in t.credits
    ensures var owner := profile.id;
      var after := ApplyAll(t, TopUpRun(Entered(Some(pounds)), Some(profile), cached, false, false).writes);
      && owner in after.credits
      && after.credits[owner].toppedUp == Some((if cached.Some? then OrZero(cached.value.toppedUp) else 0) + CreditsFor(pounds))
      && after.credits[owner].teaching == t.credits[owner].teaching
      && after.transactions == t.transactions + [TransactionRow(owner, TopUpTx, CreditsFor(pounds), None)]
      && (forall v :: v in t.credits && v != owner ==> v in after.credits && after.credits[v] == t.credits[v])
  {
    var r := TopUpRun(Entered(Some(pounds)), Some(profile), cached, false, false);
    var update, log := r.writes[0], r.writes[1];
    ApplyAllAppend(t, [], update);
    assert [] + [update] == [update];
    ApplyAllAppend(t, [update], log);
    assert [update] + [log] == r.writes;
  }

  /** The log row is inserted whether or not the balance update went through. */
  lemma LogDoesNotDependOnUpdate(pounds: real, profile: ProfileRow, cached: Option<CreditsRow>)
    requires pounds >= 2.0
    ensures TopUpRun(Entered(Some(pounds)), Some(profile), cached, true, false).writes
         == [InsertTransaction(TransactionRow(profile.id, TopUpTx, CreditsFor(pounds), None))]
    ensures TopUpRun(Entered(Some(pounds)), Some(profile), cached, true, false).outcome == CreditsAdded(CreditsFor(pounds))
  {
  }

  /** Hosted classes are queried exactly for verified hosts, the latest application exactly for the rest. */
  lemma QueriesByRole(profile: Option<ProfileRow>)
    ensures HostedClassesQuery in ProfileQueries(profile) <==> IsVerifiedHost(profile)
    ensures LatestApplicationQuery in ProfileQueries(profile) <==> !IsVerifiedHost(profile)
  {
  }
}
