/**
 * The booking bar pinned to the bottom of a class page on small screens: the
 * price, a seats badge while the class is not full, and a booked badge, a
 * hosting badge or the book button.
 */
module StickyBookingBar {
  import opened Js
  import opened Seats

  datatype BarCta = BookedBadge(text: string) | HostingBadge(text: string) | BookButton(disabled: bool, text: string)

  datatype BarView = BarView(priceText: string, seatsBadge: Option<string>, cta: BarCta)

  function Bar(price: int, seatsRemaining: int, isBooked: bool, isHost: bool): BarView {
    BarView(
      IntToString(price) + " credits",
      if !IsFull(seatsRemaining) then Some(SeatsLeftText(seatsRemaining)) else None,
      if isBooked then BookedBadge("You're booked \U{E2}\U{153}\U{201C}")
      else if isHost then HostingBadge("You're hosting")
      else BookButton(IsFull(seatsRemaining),
        if IsFull(seatsRemaining) then "Class Full" else "Book for " + IntToString(price) + " credits"))
  }

  // ---------------------------------------------------------------------------

  /** The seats badge is shown exactly when the class is not full, and is singular only for one seat. */
  lemma SeatsBadgeRule(price: int, seats: int, isBooked: bool, isHost: bool)
    ensures Bar(price, seats, isBooked, isHost).seatsBadge.Some? <==> seats != 0
    ensures seats == 1 ==> Bar(price, seats, isBooked, isHost).seatsBadge == Some("1 seat left")
    ensures seats != 1 && seats != 0 ==> Bar(price, seats, isBooked, isHost).seatsBadge == Some(IntToString(seats) + " seats left")
  {
    SeatsLeftWording(seats);
  }

  /** The bar follows the decision table: booked, then hosting, then a full or an open button. */
  lemma BarFollowsStanding(price: int, seats: int, isBooked: bool, isHost: bool)
    ensures var cta := Bar(price, seats, isBooked, isHost).cta;
      match StandingOf(isBooked, isHost, seats)
      case AlreadyBooked => cta.BookedBadge?
      case Hosting => cta.HostingBadge?
      case Full => cta == BookButton(true, "Class Full")
      case Bookable => cta == BookButton(false, "Book for " + IntToString(price) + " credits")
  {
  }
}
