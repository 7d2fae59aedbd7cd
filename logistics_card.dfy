/**
 * The logistics card of a class page: the time and duration, the location
 * and, for a signed-in user who booked, the exact address, the seats line,
 * and a notice asking a signed-out visitor to log in.
 */
module LogisticsCard {
  import opened Js
  import opened Seats

  datatype LogisticsView = LogisticsView(timeText: string, addressLine: Option<string>, seatsText: string, lockNotice: bool)

  /** `user` is whether a signed-in user is present. */
  function Logistics(time: string, duration: int, address: string, seatsRemaining: int, isBooked: bool, user: bool): LogisticsView {
    LogisticsView(
      time + " (" + IntToString(duration) + " " + (if duration == 1 then "hour" else "hours") + ")",
      if user && isBooked then Some(address) else None,
      if IsFull(seatsRemaining) then "This class is full" else SeatsLeftText(seatsRemaining),
      !user)
  }

  // ---------------------------------------------------------------------------

  /**
   * The exact address is shown only to a signed-in user who booked; the log-in
   * notice is shown exactly when no one is signed in, so the two never appear
   * together.
   */
  lemma AddressRule(time: string, duration: int, address: string, seats: int, isBooked: bool, user: bool)
    ensures var v := Logistics(time, duration, address, seats, isBooked, user);
      && (v.addressLine.Some? <==> user && isBooked)
      && (v.addressLine.Some? ==> v.addressLine.value == address)
      && (v.lockNotice <==> !user)
      && !(v.lockNotice && v.addressLine.Some?)
  {
  }

  /** The seats line says the class is full exactly at zero seats. */
  lemma {:induction false} SeatsLine(time: string, duration: int, address: string, seats: int, isBooked: bool, user: bool)
    ensures Logistics(time, duration, address, seats, isBooked, user).seatsText == "This class is full" <==> seats == 0
    ensures seats == 1 ==> Logistics(time, duration, address, seats, isBooked, user).seatsText == "1 seat left"
  {
    SeatsLeftWording(seats);
    if seats != 0 {
      var t := SeatsLeftText(seats);
      assert t[|t| - 5..] == " left";
      assert "This class is full"[13..] == " full";
    }
  }

  /** The duration reads "hour" exactly for one hour. */
  lemma DurationWording(time: string, duration: int, address: string, seats: int, isBooked: bool, user: bool)
    ensures duration == 1 ==> Logistics(time, duration, address, seats, isBooked, user).timeText == time + " (1 hour)"
    ensures duration != 1 ==> (Logistics(time, duration, address, seats, isBooked, user).timeText
      == time + " (" + IntToString(duration) + " hours)")
  {
    assert IntToString(1) == "1";
  }
}
