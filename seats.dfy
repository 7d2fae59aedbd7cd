/**
 * What the class-detail components share: a class is full when exactly zero
 * seats remain, and a count of seats reads "1 seat left" or "N seats left".
 * `StandingOf` is the order every booking control gives its cases: already
 * booked, then hosting, then full, then bookable.
 */
module Seats {
  import opened Js

  /** `seatsRemaining === 0`: an overbooked class (a negative count) is not full. */
  predicate IsFull(seatsRemaining: int) {
    seatsRemaining == 0
  }

  /** `${n} ${n === 1 ? 'seat' : 'seats'} left`. */
  function SeatsLeftText(n: int): string {
    IntToString(n) + " " + (if n == 1 then "seat" else "seats") + " left"
  }

  /** The case a booking control is in, most important first. */
  datatype Standing = AlreadyBooked | Hosting | Full | Bookable

  /** The reference decision table the booking controls are checked against. */
  function StandingOf(isBooked: bool, isHost: bool, seatsRemaining: int): (s: Standing)
    ensures s == Bookable <==> !isBooked && !isHost && seatsRemaining != 0
  {
    if isBooked then AlreadyBooked
    else if isHost then Hosting
    else if IsFull(seatsRemaining) then Full
    else Bookable
  }

  /** The seat wording is singular exactly for one seat. */
  lemma SeatsLeftWording(n: int)
    ensures SeatsLeftText(1) == "1 seat left"
    ensures n != 1 ==> SeatsLeftText(n) == IntToString(n) + " seats left"
    ensures n >= 0 ==> |SeatsLeftText(n)| > |" seat left"|
  {
    assert IntToString(1) == "1";
    if n >= 0 {
      NatToStringDigits(n);
    }
  }
}
