/**
 * The administrator's review page: the role gate, the pending/reviewed split,
 * the per-application feedback drafts, and approve/reject.
 *
 * Approve is two independent writes: the application first, then the
 * applicant's profile. Reject needs at least 10 characters of feedback after
 * trimming, and stores the feedback as typed in the application's `experience`
 * column.
 */
module Admin {
  import opened Js
  import opened Store

  /** The answer of the `has_role(user, 'admin')` remote call. */
  datatype RoleAnswer = RoleCallFailed | RoleIs(isAdmin: bool)

  datatype GateOutcome =
    | SignInFirst   // navigate to /auth
    | AccessDenied  // "Access Denied", navigate to /
    | GateError     // the role call failed: error toast, navigate to /
    | Admitted      // the applications are fetched

  /** `checkAdminAccess`. */
  function AdminGate(user: Option<Id>, role: RoleAnswer): GateOutcome {
    if user.None? then SignInFirst
    else if role.RoleCallFailed? then GateError
    else if !role.isAdmin then AccessDenied
    else Admitted
  }

  /** Only an admitted administrator's page fetches the applications. */
  predicate FetchesApplications(o: GateOutcome) {
    o == Admitted
  }

  /** `applications.filter(app => app.status === "pending")`. */
  function PendingApps(apps: seq<ApplicationRow>): (r: seq<ApplicationRow>)
    ensures forall i :: 0 <= i < |r| ==> r[i].status == Pending
    decreases |apps|
  {
    if apps == [] then []
    else (if apps[0].status == Pending then [apps[0]] else []) + PendingApps(apps[1..])
  }

  /** `applications.filter(app => app.status !== "pending")`. */
  function ReviewedApps(apps: seq<ApplicationRow>): (r: seq<ApplicationRow>)
    ensures forall i :: 0 <= i < |r| ==> r[i].status != Pending
    decreases |apps|
  {
    if apps == [] then []
    else (if apps[0].status != Pending then [apps[0]] else []) + ReviewedApps(apps[1..])
  }

  /**
   * `apps` is a merge of `xs` and `ys`: each element of `apps` is taken, in
   * order, from the front of one of the two lists, and both are used up.
   */
  predicate Interleaves<T(==)>(apps: seq<T>, xs: seq<T>, ys: seq<T>)
    decreases |apps|
  {
    if apps == [] then xs == [] && ys == []
    else
      || (xs != [] && xs[0] == apps[0] && Interleaves(apps[1..], xs[1..], ys))
      || (ys != [] && ys[0] == apps[0] && Interleaves(apps[1..], xs, ys[1..]))
  }

  /** The feedback rule: present, and at least 10 characters once trimmed. */
  predicate FeedbackAccepted(feedback: Option<string>) {
    feedback.Some? && Utf16Length(Trim(feedback.value)) >= 10
  }

  function Lookup(m: map<Id, string>, k: Id): Option<string> {
    if k in m then Some(m[k]) else None
  }

  datatype ReviewOutcome = FeedbackRequired | ReviewFailed | Done

  datatype Run = Run(outcome: ReviewOutcome, writes: seq<Write>)

  /** `handleApprove`: the application, then the profile; a failure stops there. */
  function ApproveRun(appId: Id, userId: Id, now: Timestamp, appFails: bool, profileFails: bool): Run {
    if appFails then Run(ReviewFailed, [])
    else if profileFails then Run(ReviewFailed, [ReviewApplication(appId, Approved, now, None)])
    else Run(Done, [ReviewApplication(appId, Approved, now, None), SetHostVerified(userId)])
  }

  /** `handleReject`, reading the draft feedback for the application from `drafts`. */
  function RejectRun(drafts: map<Id, string>, appId: Id, now: Timestamp, fails: bool): Run {
    var feedback := Lookup(drafts, appId);
    if !FeedbackAccepted(feedback) then Run(FeedbackRequired, [])
    else if fails then Run(ReviewFailed, [])
    else Run(Done, [ReviewApplication(appId, Rejected, now, feedback)])
  }

  /** The review page's own state: the feedback typed so far, per application. */
  class ReviewPage {
    var rejectionFeedback: map<Id, string>

    constructor ()
      ensures rejectionFeedback == map[]
    {
      rejectionFeedback := map[];
    }

    /** Typing in an application's feedback box changes only that application's draft. */
    method EditFeedback(appId: Id, text: string)
      modifies this
      ensures rejectionFeedback == old(rejectionFeedback)[appId := text]
    {
      rejectionFeedback := rejectionFeedback[appId := text];
    }

    method Approve(db: Backend, appId: Id, userId: Id, now: Timestamp, appFails: bool, profileFails: bool)
      returns (o: ReviewOutcome)
      modifies db
      ensures o == ApproveRun(appId, userId, now, appFails, profileFails).outcome
      ensures db.State() == ApplyAll(old(db.State()), ApproveRun(appId, userId, now, appFails, profileFails).writes)
    {
      var review := ReviewApplication(appId, Approved, now, None);
      ghost var s0 := db.State();
      var ok := db.Perform(review, appFails);
      if !ok {
        return ReviewFailed;
      }
      ApplyAllAppend(s0, [], review);
      assert [] + [review] == [review];
      ok := db.Perform(SetHostVerified(userId), profileFails);
      if !ok {
        return ReviewFailed;
      }
      ApplyAllAppend(s0, [review], SetHostVerified(userId));
      assert [review] + [SetHostVerified(userId)] == [review, SetHostVerified(userId)];
      o := Done;
    }

    /** Rejects, and after a successful write clears that application's draft (and only it). */
    method Reject(db: Backend, appId: Id, now: Timestamp, fails: bool) returns (o: ReviewOutcome)
      modifies this, db
      ensures o == RejectRun(old(rejectionFeedback), appId, now, fails).outcome
      ensures db.State() == ApplyAll(old(db.State()), RejectRun(old(rejectionFeedback), appId, now, fails).writes)
      ensures rejectionFeedback == if o == Done then old(rejectionFeedback)[appId := ""] else old(rejectionFeedback)
    {
      var feedback := Lookup(rejectionFeedback, appId);
      if !FeedbackAccepted(feedback) {
        return FeedbackRequired;
      }
      var review := ReviewApplication(appId, Rejected, now, feedback);
      ghost var s0 := db.State();
      var ok := db.Perform(review, fails);
      if !ok {
        return ReviewFailed;
      }
      ApplyAllAppend(s0, [], review);
      assert [] + [review] == [review];
      rejectionFeedback := rejectionFeedback[appId := ""];
      o := Done;
    }
  }

  // ---------------------------------------------------------------------------

  /** Signed out goes to /auth; a non-admin is denied; only an admin's page fetches applications. */
  lemma GateFetchesOnlyForAdmins(user: Option<Id>, role: RoleAnswer)
    ensures user.None? ==> AdminGate(user, role) == SignInFirst
    ensures user.Some? && role == RoleIs(false) ==> AdminGate(user, role) == AccessDenied
    ensures FetchesApplications(AdminGate(user, role)) <==> user.Some? && role == RoleIs(true)
  {
  }

  /**
   * The listed applications are exactly the pending ones merged with the
   * reviewed ones: each lands in one list, nothing is lost or doubled, and
   * both lists keep the listing order.
   */
  lemma {:induction false} PartitionInterleaves(apps: seq<ApplicationRow>)
    ensures Interleaves(apps, PendingApps(apps), ReviewedApps(apps))
    decreases |apps|
  {
    if apps != [] {
      PartitionInterleaves(apps[1..]);
      if apps[0].status == Pending {
        assert PendingApps(apps)[1..] == PendingApps(apps[1..]);
        assert ReviewedApps(apps) == ReviewedApps(apps[1..]);
      } else {
        assert ReviewedApps(apps)[1..] == ReviewedApps(apps[1..]);
        assert PendingApps(apps) == PendingApps(apps[1..]);
      }
    }
  }

  /** Counting copies: the two lists together hold each application as often as the listing does. */
  lemma {:induction false} PartitionCounts(apps: seq<ApplicationRow>)
    ensures multiset(PendingApps(apps)) + multiset(ReviewedApps(apps)) == multiset(apps)
    decreases |apps|
  {
    if apps != [] {
      PartitionCounts(apps[1..]);
      assert apps == [apps[0]] + apps[1..];
    }
  }

  /** An application is in the pending list exactly when it is listed and pending; likewise for reviewed. */
  lemma {:induction false} PartitionMembership(apps: seq<ApplicationRow>, a: ApplicationRow)
    ensures a in PendingApps(apps) <==> a in apps && a.status == Pending
    ensures a in ReviewedApps(apps) <==> a in apps && a.status != Pending
    decreases |apps|
  {
    if apps != [] {
      PartitionMembership(apps[1..], a);
      assert a in apps <==> a == apps[0] || a in apps[1..];
    }
  }

  /**
   * The feedback rule is on the trimmed length: 9 characters are refused and
   * 10 accepted, whatever white space surrounds them.
   */
  lemma FeedbackLengthBoundary()
    ensures !FeedbackAccepted(None)
    ensures forall pre, post | AllSpace(pre) && AllSpace(post) :: !FeedbackAccepted(Some(pre + "too short" + post))
    ensures forall pre, post | AllSpace(pre) && AllSpace(post) :: FeedbackAccepted(Some(pre + "ten chars!" + post))
  {
    assert Trim("too short") == "too short";
    assert Trim("ten chars!") == "ten chars!";
    forall pre, post | AllSpace(pre) && AllSpace(post) ensures !FeedbackAccepted(Some(pre + "too short" + post)) {
      PaddingIgnored(pre, "too short", post);
    }
    forall pre, post | AllSpace(pre) && AllSpace(post) ensures FeedbackAccepted(Some(pre + "ten chars!" + post)) {
      PaddingIgnored(pre, "ten chars!", post);
    }
  }

  /** Surrounding white space does not change whether feedback is accepted. */
  lemma PaddingIgnored(pre: string, core: string, post: string)
    requires AllSpace(pre) && AllSpace(post)
    requires core != [] && !IsSpace(core[0]) && !IsSpace(core[|core| - 1])
    ensures FeedbackAccepted(Some(pre + core + post)) == FeedbackAccepted(Some(core))
  {
    TrimPadding(pre, core, post);
    TrimStartNoop(core);
    TrimEndNoop(core);
  }

  /** Refused feedback: nothing is written and the drafts stay as they are. */
  lemma RejectNeedsFeedback(drafts: map<Id, string>, appId: Id, now: Timestamp, fails: bool)
    requires !FeedbackAccepted(Lookup(drafts, appId))
    ensures RejectRun(drafts, appId, now, fails) == Run(FeedbackRequired, [])
  {
  }

  /** An accepted reject writes "rejected", the time, and the feedback exactly as typed (untrimmed). */
  lemma {:induction false} RejectWritesUntrimmedFeedback(t: Tables, drafts: map<Id, string>, appId: Id, now: Timestamp, i: nat)
    requires FeedbackAccepted(Lookup(drafts, appId))
    requires i < |t.applications| && t.applications[i].id == appId
    ensures var after := ApplyAll(t, RejectRun(drafts, appId, now, false).writes);
      && |after.applications| == |t.applications|
      && after.applications[i] == t.applications[i].(status := Rejected, reviewedAt := Some(now), experience := Some(drafts[appId]))
  {
    var w := ReviewApplication(appId, Rejected, now, Some(drafts[appId]));
    ApplyAllAppend(t, [], w);
    assert [] + [w] == [w];
  }

  /**
   * Approve writes the application before the profile: if the first write
   * fails the profile is untouched; if the second fails the application stays
   * approved while the user is not made a host.
   */
  lemma {:induction false} ApproveOrder(t: Tables, appId: Id, userId: Id, now: Timestamp, i: nat)
    requires i < |t.applications| && t.applications[i].id == appId
    ensures ApplyAll(t, ApproveRun(appId, userId, now, true, false).writes) == t
    ensures var after := ApplyAll(t, ApproveRun(appId, userId, now, false, true).writes);
      |after.applications| == |t.applications| && after.applications[i].status == Approved && after.profiles == t.profiles
    ensures var after := ApplyAll(t, ApproveRun(appId, userId, now, false, false).writes);
      && |after.applications| == |t.applications|
      && after.applications[i].status == Approved && after.applications[i].reviewedAt == Some(now)
      && (userId in t.profiles ==> userId in after.profiles && after.profiles[userId].hostVerified == Some(true))
  {
    var w := ReviewApplication(appId, Approved, now, None);
    ApplyAllAppend(t, [], w);
    assert [] + [w] == [w];
    ApplyAllAppend(t, [w], SetHostVerified(userId));
    assert [w] + [SetHostVerified(userId)] == [w, SetHostVerified(userId)];
  }
}
