/**
 * The booking panel beside a class: the price, the user's balance when the
 * credits row is loaded, and a booked notice, a hosting notice or the book
 * button.
 */
module BookingSidebar {
  import opened Js
  import opened Store
  import opened Seats

  datatype SidebarCta = BookedNote(text: string) | HostingNote(text: string) | BookButton(disabled: bool, text: string)

  datatype SidebarView = SidebarView(priceText: string, balanceText: Option<string>, cta: SidebarCta)

  function Sidebar(price: int, seatsRemaining: int, isBooked: bool, isHost: bool, userCredits: Option<CreditsRow>): SidebarView {
    SidebarView(
      IntToString(price) + " credits",
      if userCredits.Some? then Some("Your balance: " + IntToString(TotalCredits(userCredits)) + " credits") else None,
      if isBooked then BookedNote("You're booked ✓")
      else if isHost then HostingNote("You're hosting this class")
      else BookButton(IsFull(seatsRemaining),
        if IsFull(seatsRemaining) then "Class Full" else "Book for " + IntToString(price) + " credits"))
  }

  // ---------------------------------------------------------------------------

  /** The panel follows the decision table: booked, then hosting, then a full or an open button. */
  lemma SidebarFollowsStanding(price: int, seats: int, isBooked: bool, isHost: bool, credits: Option<CreditsRow>)
    ensures var cta := Sidebar(price, seats, isBooked, isHost, credits).cta;
      match StandingOf(isBooked, isHost, seats)
      case AlreadyBooked => cta.BookedNote?
      case Hosting => cta.HostingNote?
      case Full => cta == BookButton(true, "Class Full")
      case Bookable => cta == BookButton(false, "Book for " + IntToString(price) + " credits")
  {
  }

  /** The book button can be pressed exactly when not booked, not hosting and not at zero seats. */
  lemma SidebarBookableIff(price: int, seats: int, isBooked: bool, isHost: bool, credits: Option<CreditsRow>)
    ensures var cta := Sidebar(price, seats, isBooked, isHost, credits).cta;
      (cta.BookButton? && !cta.disabled) <==> !isBooked && !isHost && seats != 0
  {
  }

  /** The balance line is shown exactly when the credits row is loaded, as the sum of both balances (missing as 0). */
  lemma BalanceLine(price: int, seats: int, isBooked: bool, isHost: bool, credits: Option<CreditsRow>)
    ensures Sidebar(price, seats, isBooked, isHost, credits).balanceText.Some? <==> credits.Some?
    ensures credits.Some? ==> (Sidebar(price, seats, isBooked, isHost, credits).balanceText
      == Some("Your balance: " + IntToString(OrZero(credits.value.toppedUp) + OrZero(credits.value.teaching)) + " credits"))
  {
  }
}
