/**
 * The hosted data service, seen as plain tables. Every page handler talks to it
 * through single-row inserts and keyed updates, each of which may fail on its
 * own; there are no transactions, so a handler's effect is whatever prefix of
 * its writes succeeded.
 */
module Store {
  import opened Js

  type Id = string
  type Timestamp = int

  /** A `credits` row: two nullable balances. */
  datatype CreditsRow = CreditsRow(toppedUp: Option<int>, teaching: Option<int>)

  /** A `bookings` row. */
  datatype BookingRow = BookingRow(classId: Id, userId: Id)

  /** The `type` column of `credit_transactions`: "top_up" or "booking". */
  datatype TxKind = TopUpTx | BookingTx

  /** A `credit_transactions` row; `amount` is signed. */
  datatype TransactionRow = TransactionRow(userId: Id, kind: TxKind, amount: int, classId: Option<Id>)

  /** A `profiles` row, with the fields the modelled pages read. */
  datatype ProfileRow = ProfileRow(id: Id, city: string, country: string, hostVerified: Option<bool>)

  /** A row of the host-application form: an experience and how many years of it. */
  datatype Experience = Experience(name: string, years: string)

  /** A row of the host-application form: a labelled link to proof of work. */
  datatype ProofLink = ProofLink(linkLabel: string, url: string)

  datatype Status = Pending | Approved | Rejected

  /**
   * A `host_applications` row. `experience` is the column the review page
   * writes rejection feedback into; the other free-text columns are the ones
   * the application form inserts.
   */
  datatype ApplicationRow = ApplicationRow(
    id: Id, userId: Id, status: Status, submittedAt: Timestamp, reviewedAt: Option<Timestamp>,
    bio: string, teachIdeas: string,
    experiences: Option<seq<Experience>>, proofLinks: Option<seq<ProofLink>>,
    experience: Option<string>)

  /** A `classes` row; `costCredits` and `maxParticipants` are nullable. */
  datatype ClassRow = ClassRow(
    id: Id, hostId: Id, title: string, description: string, category: string,
    city: string, country: string, address: string, date: string, time: string,
    duration: int, costCredits: Option<int>, maxParticipants: Option<int>)

  /** A `learning_interest` row. */
  datatype InterestRow = InterestRow(interest: string, userId: Option<Id>)

  datatype Tables = Tables(
    bookings: seq<BookingRow>,
    credits: map<Id, CreditsRow>,
    transactions: seq<TransactionRow>,
    profiles: map<Id, ProfileRow>,
    applications: seq<ApplicationRow>,
    classes: seq<ClassRow>,
    interests: seq<InterestRow>)

  /** What an update of a `credits` row sets. */
  datatype CreditsPatch = SetBoth(toppedUp: int, teaching: int) | SetToppedUp(newToppedUp: int)

  /** One request to the data service that changes something. */
  datatype Write =
    | InsertBooking(booking: BookingRow)
    | UpdateCredits(owner: Id, patch: CreditsPatch)
    | InsertTransaction(tx: TransactionRow)
    | ReviewApplication(appId: Id, newStatus: Status, reviewedAt: Timestamp, feedback: Option<string>)
    | SetHostVerified(profileId: Id)
    | InsertApplication(app: ApplicationRow)
    | InsertClass(cls: ClassRow)
    | InsertInterest(row: InterestRow)

  function Patched(row: CreditsRow, patch: CreditsPatch): CreditsRow {
    match patch
    case SetBoth(t, e) => CreditsRow(Some(t), Some(e))
    case SetToppedUp(t) => row.(toppedUp := Some(t))
  }

  /**
   * `update ... where id = appId`: every row with that id gets the new status
   * and review time, and the feedback (when there is one) in `experience`.
   */
  function Reviewed(apps: seq<ApplicationRow>, appId: Id, st: Status, at: Timestamp, feedback: Option<string>): (r: seq<ApplicationRow>)
    ensures |r| == |apps|
  {
    seq(|apps|, i requires 0 <= i < |apps| =>
      if apps[i].id == appId then
        apps[i].(status := st, reviewedAt := Some(at),
                 experience := if feedback.Some? then feedback else apps[i].experience)
      else apps[i])
  }

  /** The effect of one successful write. An update whose key matches no row changes nothing. */
  function Apply(t: Tables, w: Write): Tables {
    match w
    case InsertBooking(b) => t.(bookings := t.bookings + [b])
    case UpdateCredits(u, p) =>
      if u in t.credits then t.(credits := t.credits[u := Patched(t.credits[u], p)]) else t
    case InsertTransaction(x) => t.(transactions := t.transactions + [x])
    case ReviewApplication(id, st, at, fb) => t.(applications := Reviewed(t.applications, id, st, at, fb))
    case SetHostVerified(u) =>
      if u in t.profiles then t.(profiles := t.profiles[u := t.profiles[u].(hostVerified := Some(true))]) else t
    case InsertApplication(a) => t.(applications := t.applications + [a])
    case InsertClass(c) => t.(classes := t.classes + [c])
    case InsertInterest(r) => t.(interests := t.interests + [r])
  }

  function ApplyAll(t: Tables, ws: seq<Write>): Tables
    decreases |ws|
  {
    if ws == [] then t else ApplyAll(Apply(t, ws[0]), ws[1..])
  }

  /** The total of the two balances, each missing value counted as 0. */
  function TotalCredits(credits: Option<CreditsRow>): int {
    if credits.None? then 0 else OrZero(credits.value.toppedUp) + OrZero(credits.value.teaching)
  }

  /**
   * `select ... where user_id = u order by submitted_at desc limit 1`: the
   * user's most recently submitted application, if any; on a tie, the first
   * of them in list order.
   */
  function LatestApplication(apps: seq<ApplicationRow>, u: Id): (r: Option<ApplicationRow>)
    ensures r.None? <==> forall i :: 0 <= i < |apps| ==> apps[i].userId != u
    ensures r.Some? ==> r.value in apps && r.value.userId == u
    ensures r.Some? ==> forall i :: 0 <= i < |apps| && apps[i].userId == u ==> apps[i].submittedAt <= r.value.submittedAt
    decreases |apps|
  {
    if apps == [] then None
    else
      var rest := LatestApplication(apps[1..], u);
      if apps[0].userId != u then rest
      else if rest.Some? && rest.value.submittedAt > apps[0].submittedAt then rest
      else Some(apps[0])
  }

  /** The data service as one object holding every table. */
  class Backend {
    var bookings: seq<BookingRow>
    var credits: map<Id, CreditsRow>
    var transactions: seq<TransactionRow>
    var profiles: map<Id, ProfileRow>
    var applications: seq<ApplicationRow>
    var classes: seq<ClassRow>
    var interests: seq<InterestRow>

    function State(): Tables
      reads this
    {
      Tables(bookings, credits, transactions, profiles, applications, classes, interests)
    }

    constructor (t: Tables)
      ensures State() == t
    {
      bookings, credits, transactions := t.bookings, t.credits, t.transactions;
      profiles, applications, classes, interests := t.profiles, t.applications, t.classes, t.interests;
    }

    /**
     * Send one write. When `fails` (a network error, a constraint or a
     * row-level-security denial) nothing changes and an error comes back.
     */
    method Perform(w: Write, fails: bool) returns (ok: bool)
      modifies this
      ensures ok == !fails
      ensures State() == if ok then Apply(old(State()), w) else old(State())
    {
      ok := !fails;
      if fails {
        return;
      }
      match w
      case InsertBooking(b) => bookings := bookings + [b];
      case UpdateCredits(u, p) =>
        if u in credits {
          credits := credits[u := Patched(credits[u], p)];
        }
      case InsertTransaction(x) => transactions := transactions + [x];
      case ReviewApplication(id, st, at, fb) => applications := Reviewed(applications, id, st, at, fb);
      case SetHostVerified(u) =>
        if u in profiles {
          profiles := profiles[u := profiles[u].(hostVerified := Some(true))];
        }
      case InsertApplication(a) => applications := applications + [a];
      case InsertClass(c) => classes := classes + [c];
      case InsertInterest(r) => interests := interests + [r];
    }
  }

  lemma {:induction false} ApplyAllAppend(t: Tables, ws: seq<Write>, w: Write)
    ensures ApplyAll(t, ws + [w]) == Apply(ApplyAll(t, ws), w)
    decreases |ws|
  {
    if ws != [] {
      assert (ws + [w])[1..] == ws[1..] + [w];
      ApplyAllAppend(Apply(t, ws[0]), ws[1..], w);
    }
  }
}
