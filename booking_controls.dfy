/**
 * How the booking controls of the different views relate. The side panel,
 * the sticky bar and the hero all decide from the same seats count and agree
 * on when booking is offered; the class card and the class page's own
 * button decide from bookings against capacity, and disagree once a class is
 * overbooked.
 */
module BookingControls {
  import opened Js
  import opened Store
  import opened Seats
  import BookingSidebar
  import StickyBookingBar
  import ClassHero
  import ClassCard
  import ClassDetail

  /** Whether each view offers an enabled book button. */
  predicate SidebarOffers(price: int, seats: int, isBooked: bool, isHost: bool, credits: Option<CreditsRow>) {
    var cta := BookingSidebar.Sidebar(price, seats, isBooked, isHost, credits).cta;
    cta.BookButton? && !cta.disabled
  }

  predicate BarOffers(price: int, seats: int, isBooked: bool, isHost: bool) {
    var cta := StickyBookingBar.Bar(price, seats, isBooked, isHost).cta;
    cta.BookButton? && !cta.disabled
  }

  predicate HeroOffers(seats: int, isBooked: bool, isHost: bool) {
    var cta := ClassHero.Hero(seats, isBooked, isHost).cta;
    cta.Some? && !cta.value.disabled
  }

  /**
   * Side panel, sticky bar and hero offer booking in exactly the same cases:
   * neither booked nor hosting, and a seats count other than 0.
   */
  lemma SeatViewsAgree(price: int, seats: int, isBooked: bool, isHost: bool, credits: Option<CreditsRow>)
    ensures SidebarOffers(price, seats, isBooked, isHost, credits) <==> BarOffers(price, seats, isBooked, isHost)
    ensures BarOffers(price, seats, isBooked, isHost) <==> HeroOffers(seats, isBooked, isHost)
    ensures HeroOffers(seats, isBooked, isHost) <==> StandingOf(isBooked, isHost, seats) == Bookable
  {
    BookingSidebar.SidebarFollowsStanding(price, seats, isBooked, isHost, credits);
    StickyBookingBar.BarFollowsStanding(price, seats, isBooked, isHost);
    ClassHero.HeroFollowsStanding(seats, isBooked, isHost);
  }

  /**
   * With at most as many bookings as seats, the card and the class page
   * agree: both disable the button exactly when the class is at capacity.
   */
  lemma CardAndPageAgreeUpToCapacity(c: ClassDetail.ClassData)
    requires |c.bookings| <= OrZero(c.maxParticipants)
    ensures ClassCard.Card(|c.bookings|, OrZero(c.maxParticipants)).buttonDisabled
      <==> ClassDetail.PageAction(false, c).disabled
  {
    ClassCard.ButtonAgreesWithLabel(|c.bookings|, OrZero(c.maxParticipants));
  }

  /**
   * An overbooked class is "Class Full" on its page, while its card, where
   * only exactly 0 remaining spots counts as full, still offers booking.
   */
  lemma OverbookedCardStillOpen(c: ClassDetail.ClassData)
    requires |c.bookings| > OrZero(c.maxParticipants)
    ensures ClassDetail.PageAction(false, c) == ClassDetail.BookButton(true, "Class Full")
    ensures !ClassCard.Card(|c.bookings|, OrZero(c.maxParticipants)).buttonDisabled
  {
    ClassCard.OverbookedNotFull(|c.bookings|, OrZero(c.maxParticipants));
  }
}
