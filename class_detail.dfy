/**
 * The class page: whether the signed-in user has booked, the book button, and
 * the booking handler with its two-bucket debit.
 *
 * The handler checks only that someone is signed in and that the two balances
 * together cover the cost. It then inserts the booking, rewrites both balances
 * and logs a transaction, in that order, each as its own request, and never
 * undoes an earlier step. Capacity and "not your own class" are not checked by
 * the handler at all: capacity only disables the button.
 */
module ClassDetail {
  import opened Js
  import opened Store

  /** What the page has loaded about the class when the button is pressed. */
  datatype ClassData = ClassData(
    id: Id, hostId: Id, costCredits: Option<int>, maxParticipants: Option<int>, bookings: seq<BookingRow>)

  /** How a cost is split over the two balances, and the balances that result. */
  datatype Debit = Debit(teachingToUse: int, toppedUpToUse: int, newTeaching: int, newToppedUp: int)

  /** Teaching credits are used first, up to the cost; the topped-up balance pays the rest. */
  function DebitFor(teaching: int, toppedUp: int, cost: int): Debit {
    var fromTeaching := if teaching <= cost then teaching else cost;
    Debit(fromTeaching, cost - fromTeaching, teaching - fromTeaching, toppedUp - (cost - fromTeaching))
  }

  datatype BookingOutcome =
    | LoginRequired                     // toast, then navigate to /auth
    | NoClassLoaded                     // nothing loaded yet: return silently
    | InsufficientCredits(needed: int)  // "Insufficient credits"
    | BookingFailed                     // a request failed or the handler threw: "Booking failed"
    | Booked                            // "You're in", then both are fetched again

  /** What one press of the button does: its outcome and the writes that reached the store, in order. */
  datatype Run = Run(outcome: BookingOutcome, writes: seq<Write>)

  function BookingWrite(u: Id, c: ClassData): Write {
    InsertBooking(BookingRow(c.id, u))
  }

  function DebitWrite(u: Id, c: ClassData, credits: CreditsRow): Write {
    var d := DebitFor(OrZero(credits.teaching), OrZero(credits.toppedUp), OrZero(c.costCredits));
    UpdateCredits(u, SetBoth(d.newToppedUp, d.newTeaching))
  }

  function LogWrite(u: Id, c: ClassData): Write {
    InsertTransaction(TransactionRow(u, BookingTx, -OrZero(c.costCredits), Some(c.id)))
  }

  /**
   * `handleBookClass`. `credits` is the row the page loaded earlier (possibly
   * stale, possibly null); the three flags say which requests fail.
   * With no credits row and a cost of at most 0 the guard passes, the booking
   * is inserted, and reading `teaching_balance` of null then throws.
   */
  function BookingRun(user: Option<Id>, cls: Option<ClassData>, credits: Option<CreditsRow>,
                      bookingFails: bool, creditsFails: bool, txFails: bool): Run
  {
    if user.None? then Run(LoginRequired, [])
    else if cls.None? then Run(NoClassLoaded, [])
    else
      var u, c := user.value, cls.value;
      var cost := OrZero(c.costCredits);
      if TotalCredits(credits) < cost then Run(InsufficientCredits(cost), [])
      else if bookingFails then Run(BookingFailed, [])
      else if credits.None? then Run(BookingFailed, [BookingWrite(u, c)])
      else if creditsFails then Run(BookingFailed, [BookingWrite(u, c)])
      else Run(Booked, [BookingWrite(u, c), DebitWrite(u, c, credits.value)] + (if txFails then [] else [LogWrite(u, c)]))
  }

  /** The booking handler, sending its requests one after another to the store. */
  method BookClass(db: Backend, user: Option<Id>, cls: Option<ClassData>, credits: Option<CreditsRow>,
                   bookingFails: bool, creditsFails: bool, txFails: bool) returns (o: BookingOutcome)
    modifies db
    ensures o == BookingRun(user, cls, credits, bookingFails, creditsFails, txFails).outcome
    ensures db.State() == ApplyAll(old(db.State()), BookingRun(user, cls, credits, bookingFails, creditsFails, txFails).writes)
  {
    if user.None? {
      return LoginRequired;
    }
    if cls.None? {
      return NoClassLoaded;
    }
    var u, c := user.value, cls.value;
    var cost := OrZero(c.costCredits);
    if TotalCredits(credits) < cost {
      return InsufficientCredits(cost);
    }
    ghost var s0 := db.State();
    var ok := db.Perform(BookingWrite(u, c), bookingFails);
    if !ok {
      return BookingFailed;
    }
    ApplyAllAppend(s0, [], BookingWrite(u, c));
    assert [] + [BookingWrite(u, c)] == [BookingWrite(u, c)];
    if credits.None? {
      return BookingFailed;
    }
    ok := db.Perform(DebitWrite(u, c, credits.value), creditsFails);
    if !ok {
      return BookingFailed;
    }
    ApplyAllAppend(s0, [BookingWrite(u, c)], DebitWrite(u, c, credits.value));
    assert [BookingWrite(u, c)] + [DebitWrite(u, c, credits.value)] == [BookingWrite(u, c), DebitWrite(u, c, credits.value)];
    // the transaction insert's own error is not looked at
    ok := db.Perform(LogWrite(u, c), txFails);
    ApplyAllAppend(s0, [BookingWrite(u, c), DebitWrite(u, c, credits.value)], LogWrite(u, c));
    assert [BookingWrite(u, c), DebitWrite(u, c, credits.value)] + [LogWrite(u, c)]
        == [BookingWrite(u, c), DebitWrite(u, c, credits.value), LogWrite(u, c)];
    o := Booked;
  }

  /** Whether `u` holds one of the bookings (`bookings.find(b => b.user_id === u)`). */
  function HasBooking(bookings: seq<BookingRow>, u: Id): (r: bool)
    ensures r <==> exists i :: 0 <= i < |bookings| && bookings[i].userId == u
    decreases |bookings|
  {
    if bookings == [] then false
    else if bookings[0].userId == u then true
    else
      var rest := HasBooking(bookings[1..], u);
      assert rest ==> exists i :: 0 < i < |bookings| && bookings[i].userId == u by {
        if rest {
          var j :| 0 <= j < |bookings[1..]| && bookings[1..][j].userId == u;
          assert bookings[j + 1].userId == u;
        }
      }
      rest
  }

  /** `isBooked` after the class is loaded: recomputed only when a user is known, kept otherwise. */
  function IsBookedAfterLoad(user: Option<Id>, bookings: seq<BookingRow>, previous: bool): bool {
    if user.Some? then HasBooking(bookings, user.value) else previous
  }

  /** The side panel: a "booked" notice, or the book button. */
  datatype Action = BookedNotice | BookButton(disabled: bool, text: string)

  function PageAction(isBooked: bool, c: ClassData): Action {
    if isBooked then BookedNotice
    else
      var full := |c.bookings| >= OrZero(c.maxParticipants);
      BookButton(full, if full then "Class Full" else "Book This Class")
  }

  // ---------------------------------------------------------------------------
  // The debit

  /** The split is teaching-first: `min(teaching, cost)` from teaching, the rest from topped-up. */
  lemma DebitTeachingFirst(teaching: int, toppedUp: int, cost: int)
    ensures DebitFor(teaching, toppedUp, cost).teachingToUse == (if teaching < cost then teaching else cost)
    ensures DebitFor(teaching, toppedUp, cost).toppedUpToUse == cost - DebitFor(teaching, toppedUp, cost).teachingToUse
  {
  }

  /**
   * The ledger rule stated independently: teaching drops to `max(0, teaching - cost)`
   * and topped-up loses `max(0, cost - teaching)`; the two together lose exactly the cost.
   */
  lemma DebitMatchesLedgerRule(teaching: int, toppedUp: int, cost: int)
    ensures var d := DebitFor(teaching, toppedUp, cost);
      && d.newTeaching == (if teaching - cost > 0 then teaching - cost else 0)
      && d.newToppedUp == toppedUp - (if cost - teaching > 0 then cost - teaching else 0)
      && d.newTeaching + d.newToppedUp == teaching + toppedUp - cost
  {
  }

  /** When the balances start non-negative and cover the cost, neither goes negative. */
  lemma DebitNonNegative(teaching: int, toppedUp: int, cost: int)
    requires teaching >= 0 && toppedUp >= 0 && teaching + toppedUp >= cost
    ensures DebitFor(teaching, toppedUp, cost).newTeaching >= 0
    ensures DebitFor(teaching, toppedUp, cost).newToppedUp >= 0
  {
  }

  /** Without the non-negative start the topped-up balance can stay negative. */
  lemma DebitNeedsNonNegativeStart()
    ensures TotalCredits(Some(CreditsRow(Some(-5), Some(10)))) >= 3
    ensures DebitFor(10, -5, 3).newToppedUp < 0
  {
  }

  // ---------------------------------------------------------------------------
  // The handler

  /** Signed out: the page goes to /auth and nothing is written. */
  lemma SignedOutWritesNothing(cls: Option<ClassData>, credits: Option<CreditsRow>, f1: bool, f2: bool, f3: bool)
    ensures BookingRun(None, cls, credits, f1, f2, f3) == Run(LoginRequired, [])
  {
  }

  /** Balances below the cost (missing ones as 0): no booking, no debit, no transaction. */
  lemma InsufficientWritesNothing(u: Id, c: ClassData, credits: Option<CreditsRow>, f1: bool, f2: bool, f3: bool)
    requires TotalCredits(credits) < OrZero(c.costCredits)
    ensures BookingRun(Some(u), Some(c), credits, f1, f2, f3) == Run(InsufficientCredits(OrZero(c.costCredits)), [])
  {
  }

  /**
   * Whatever fails, the writes that happened are a prefix of
   * booking, debit, transaction: no later step happens without the earlier ones.
   */
  lemma WritesArePrefixOfSequence(u: Id, c: ClassData, credits: CreditsRow, f1: bool, f2: bool, f3: bool)
    ensures BookingRun(Some(u), Some(c), Some(credits), f1, f2, f3).writes
            <= [BookingWrite(u, c), DebitWrite(u, c, credits), LogWrite(u, c)]
  {
  }

  /** A failed booking insert stops before the debit; a failed debit leaves the booking in place. */
  lemma NoRollback(u: Id, c: ClassData, credits: Option<CreditsRow>, f2: bool, f3: bool)
    requires TotalCredits(credits) >= OrZero(c.costCredits)
    ensures BookingRun(Some(u), Some(c), credits, true, f2, f3) == Run(BookingFailed, [])
    ensures BookingRun(Some(u), Some(c), credits, false, true, f3) == Run(BookingFailed, [BookingWrite(u, c)])
  {
  }

  /** A missing credits row with a cost of 0 or less: the booking is inserted, then the handler throws. */
  lemma NullCreditsThrowAfterInsert(u: Id, c: ClassData, f2: bool, f3: bool)
    requires OrZero(c.costCredits) <= 0
    ensures BookingRun(Some(u), Some(c), None, false, f2, f3) == Run(BookingFailed, [BookingWrite(u, c)])
  {
  }

  /**
   * The outcome is `Booked` exactly when the guard passed, a credits row was
   * loaded, and the first two requests succeeded; the transaction's own
   * failure does not change it. The logged row is a "booking" of minus the cost.
   */
  lemma BookedExactly(u: Id, c: ClassData, credits: Option<CreditsRow>, f1: bool, f2: bool, f3: bool)
    ensures BookingRun(Some(u), Some(c), credits, f1, f2, f3).outcome == Booked
        <==> TotalCredits(credits) >= OrZero(c.costCredits) && credits.Some? && !f1 && !f2
    ensures BookingRun(Some(u), Some(c), credits, f1, f2, f3).outcome == Booked && !f3 ==>
      LogWrite(u, c) in BookingRun(Some(u), Some(c), credits, f1, f2, f3).writes
      && LogWrite(u, c).tx == TransactionRow(u, BookingTx, -OrZero(c.costCredits), Some(c.id))
  {
  }

  /**
   * After a successful booking the user's row in the store holds the page's
   * balances minus the cost (the write replaces whatever the store held), split
   * teaching-first, and both stay non-negative when they started so.
   */
  lemma {:induction false} BookedBalances(t: Tables, u: Id, c: ClassData, credits: CreditsRow, f3: bool)
    requires u in t.credits
    requires TotalCredits(Some(credits)) >= OrZero(c.costCredits)
    ensures var after := ApplyAll(t, BookingRun(Some(u), Some(c), Some(credits), false, false, f3).writes);
      && u in after.credits
      && after.credits[u].toppedUp.Some? && after.credits[u].teaching.Some?
      && TotalCredits(Some(after.credits[u])) == TotalCredits(Some(credits)) - OrZero(c.costCredits)
      && (OrZero(credits.teaching) >= 0 && OrZero(credits.toppedUp) >= 0 ==>
            OrZero(after.credits[u].teaching) >= 0 && OrZero(after.credits[u].toppedUp) >= 0)
      && after.bookings == t.bookings + [BookingRow(c.id, u)]
  {
    var ws := BookingRun(Some(u), Some(c), Some(credits), false, false, f3).writes;
    var b, d, l := BookingWrite(u, c), DebitWrite(u, c, credits), LogWrite(u, c);
    ApplyAllAppend(t, [], b);
    assert [] + [b] == [b];
    ApplyAllAppend(t, [b], d);
    assert [b] + [d] == [b, d];
    ApplyAllAppend(t, [b, d], l);
    assert [b, d] + [l] == [b, d, l];
    assert ws == if f3 then [b, d] else [b, d, l];
    DebitMatchesLedgerRule(OrZero(credits.teaching), OrZero(credits.toppedUp), OrZero(c.costCredits));
  }

  /** The handler looks at neither capacity nor who hosts the class. */
  lemma HandlerIgnoresCapacityAndHost(user: Option<Id>, c: ClassData, credits: Option<CreditsRow>,
                                      bs: seq<BookingRow>, cap: Option<int>, host: Id, f1: bool, f2: bool, f3: bool)
    ensures BookingRun(user, Some(c.(bookings := bs, maxParticipants := cap, hostId := host)), credits, f1, f2, f3)
         == BookingRun(user, Some(c), credits, f1, f2, f3)
  {
  }

  /** The worked example: 3 topped-up and 2 teaching, a class of 4, leaves 1 and 0 and logs -4. */
  lemma ExampleThreePlusTwo(u: Id, c: ClassData)
    requires c.costCredits == Some(4)
    ensures BookingRun(Some(u), Some(c), Some(CreditsRow(Some(3), Some(2))), false, false, false).writes
         == [InsertBooking(BookingRow(c.id, u)), UpdateCredits(u, SetBoth(1, 0)),
             InsertTransaction(TransactionRow(u, BookingTx, -4, Some(c.id)))]
  {
  }

  // ---------------------------------------------------------------------------
  // The page

  /**
   * A load that sees a user sets `isBooked` exactly when one of the class's
   * bookings is theirs; a load that sees no user keeps the previous value, so
   * the first load, starting from `false`, leaves it `false`.
   */
  lemma IsBookedIff(u: Id, bookings: seq<BookingRow>, previous: bool)
    ensures IsBookedAfterLoad(Some(u), bookings, previous) <==> exists i :: 0 <= i < |bookings| && bookings[i].userId == u
    ensures IsBookedAfterLoad(None, bookings, previous) == previous
    ensures !IsBookedAfterLoad(None, bookings, false)
  {
  }

  /**
   * `isBooked` after the load started on mount, as written: that load runs
   * in the first render, where `user` is still null whatever the session
   * holds, so the initial `false` is kept.
   */
  function MountIsBooked(session: Option<Id>, bookings: seq<BookingRow>): bool {
    IsBookedAfterLoad(None, bookings, false)
  }

  /** `isBooked` after the mount load as intended: the load sees the session's user. */
  function IntendedMountIsBooked(session: Option<Id>, bookings: seq<BookingRow>): bool {
    IsBookedAfterLoad(session, bookings, false)
  }

  /**
   * As written, a signed-in user who already holds a booking of a class with
   * seats left is offered "Book This Class" on a fresh load, and with enough
   * credits the handler books them again.
   */
  lemma MountMissesOwnBooking(u: Id, c: ClassData, credits: CreditsRow, i: nat)
    requires i < |c.bookings| && c.bookings[i].userId == u
    requires |c.bookings| < OrZero(c.maxParticipants)
    requires TotalCredits(Some(credits)) >= OrZero(c.costCredits)
    ensures HasBooking(c.bookings, u)
    ensures !MountIsBooked(Some(u), c.bookings)
    ensures PageAction(MountIsBooked(Some(u), c.bookings), c) == BookButton(false, "Book This Class")
    ensures BookingRun(Some(u), Some(c), Some(credits), false, false, false).outcome == Booked
    ensures BookingRun(Some(u), Some(c), Some(credits), false, false, false).writes[0] == InsertBooking(BookingRow(c.id, u))
  {
  }

  /**
   * As intended, the mount load shows the booked notice exactly to a
   * signed-in user holding one of the class's bookings.
   */
  lemma IntendedMountShowsBooking(session: Option<Id>, c: ClassData)
    ensures IntendedMountIsBooked(session, c.bookings) <==>
      session.Some? && exists i :: 0 <= i < |c.bookings| && c.bookings[i].userId == session.value
    ensures PageAction(IntendedMountIsBooked(session, c.bookings), c) == BookedNotice <==>
      session.Some? && exists i :: 0 <= i < |c.bookings| && c.bookings[i].userId == session.value
  {
  }

  /** The button is disabled, and reads "Class Full", exactly when bookings reach the capacity. */
  lemma PageButtonFullRule(c: ClassData)
    ensures PageAction(false, c).disabled <==> |c.bookings| >= OrZero(c.maxParticipants)
    ensures PageAction(false, c).text == "Class Full" <==> PageAction(false, c).disabled
  {
  }
}
