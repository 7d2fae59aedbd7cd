/**
 * The top of a class page: a seats badge or a "Class Full" badge, the call
 * to action for someone who neither booked nor hosts the class, and
 * separate booked and hosting badges.
 */
module ClassHero {
  import opened Js
  import opened Seats

  datatype HeroButton = HeroButton(disabled: bool, text: string)

  datatype HeroView = HeroView(
    seatsBadge: Option<string>, fullBadge: bool, cta: Option<HeroButton>,
    bookedBadge: Option<string>, hostingBadge: bool)

  function Hero(seatsRemaining: int, isBooked: bool, isHost: bool): HeroView {
    HeroView(
      if !IsFull(seatsRemaining) then Some(SeatsLeftText(seatsRemaining)) else None,
      IsFull(seatsRemaining),
      if !isBooked && !isHost then
        Some(if IsFull(seatsRemaining) then HeroButton(true, "Class Full") else HeroButton(false, "Book This Class"))
      else None,
      if isBooked then Some(BookedBadgeText) else None,
      isHost)
  }

  /** The text of the booked badge, with the check mark spelled as the file has it. */
  const BookedBadgeText := "You're booked \U{E2}\U{153}\U{201C}"

  // ---------------------------------------------------------------------------

  /** Exactly one of the seats badge and the "Class Full" badge is shown. */
  lemma OneSeatBadge(seats: int, isBooked: bool, isHost: bool)
    ensures Hero(seats, isBooked, isHost).seatsBadge.Some? != Hero(seats, isBooked, isHost).fullBadge
  {
  }

  /**
   * The call to action is there exactly for a user who neither booked nor
   * hosts; it is a disabled "Class Full" or an enabled "Book This Class",
   * as the decision table says.
   */
  lemma HeroFollowsStanding(seats: int, isBooked: bool, isHost: bool)
    ensures Hero(seats, isBooked, isHost).cta.Some? <==> !isBooked && !isHost
    ensures var cta := Hero(seats, isBooked, isHost).cta;
      match StandingOf(isBooked, isHost, seats)
      case AlreadyBooked => cta.None?
      case Hosting => cta.None?
      case Full => cta == Some(HeroButton(true, "Class Full"))
      case Bookable => cta == Some(HeroButton(false, "Book This Class"))
  {
  }

  /** Unlike the other controls, the booked and hosting badges do not exclude each other. */
  lemma BadgesIndependent(seats: int)
    ensures Hero(seats, true, true).bookedBadge == Some(BookedBadgeText) && Hero(seats, true, true).hostingBadge
    ensures Hero(seats, true, true).cta.None?
  {
  }
}
