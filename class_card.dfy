/**
 * A class card in the listing: how many spots remain, when the class counts
 * as almost full or full, and what the label and the button say.
 */
module ClassCard {
  import opened Js

  /** The colour of the spots line: destructive when full, orange when almost full. */
  datatype Tone = Destructive | Warning | Muted

  datatype CardView = CardView(spotsText: string, tone: Tone, buttonDisabled: bool, buttonText: string)

  /** `maxParticipants - currentParticipants`. */
  function RemainingSpots(currentParticipants: int, maxParticipants: int): int {
    maxParticipants - currentParticipants
  }

  /** `remainingSpots <= 2`. */
  predicate AlmostFull(remaining: int) {
    remaining <= 2
  }

  /** `remainingSpots === 0`. */
  predicate CardFull(remaining: int) {
    remaining == 0
  }

  function SpotsText(remaining: int): string {
    if CardFull(remaining) then "Full"
    else IntToString(remaining) + " spot" + (if remaining != 1 then "s" else "") + " left"
  }

  function Card(currentParticipants: int, maxParticipants: int): CardView {
    var r := RemainingSpots(currentParticipants, maxParticipants);
    CardView(
      SpotsText(r),
      if CardFull(r) then Destructive else if AlmostFull(r) then Warning else Muted,
      CardFull(r),
      if CardFull(r) then "Session Full" else "Join Session")
  }

  // ---------------------------------------------------------------------------

  /**
   * The button is disabled exactly when the class is full, and then the
   * label reads "Full": label and button never disagree.
   */
  lemma {:induction false} ButtonAgreesWithLabel(current: int, max: int)
    ensures Card(current, max).buttonDisabled <==> current == max
    ensures Card(current, max).buttonDisabled <==> Card(current, max).spotsText == "Full"
    ensures Card(current, max).buttonDisabled <==> Card(current, max).buttonText == "Session Full"
  {
    var r := RemainingSpots(current, max);
    if r != 0 {
      NatToStringDigits(if r < 0 then -r else r);
      assert |IntToString(r)| >= 1;
      assert |SpotsText(r)| >= 1 + |" spot left"| > |"Full"|;
    }
  }

  /** "Almost full" takes in the full class and any overbooked one. */
  lemma AlmostFullIncludesFull(current: int, max: int)
    ensures CardFull(RemainingSpots(current, max)) ==> AlmostFull(RemainingSpots(current, max))
    ensures current > max ==> AlmostFull(RemainingSpots(current, max)) && !CardFull(RemainingSpots(current, max))
    ensures Card(current, max).tone == Destructive <==> current == max
    ensures Card(current, max).tone == Warning <==> current != max && max - current <= 2
  {
  }

  /** An overbooked class is not full: its button stays enabled and says "Join Session". */
  lemma OverbookedNotFull(current: int, max: int)
    requires current > max
    ensures !Card(current, max).buttonDisabled && Card(current, max).buttonText == "Join Session"
    ensures Card(current, max).spotsText == "-" + NatToString(current - max) + " spots left"
  {
  }

  /** The label: one spot is singular, any other count is plural. */
  lemma SpotsWording(current: int, max: int)
    ensures max - current == 1 ==> Card(current, max).spotsText == "1 spot left"
    ensures max - current != 1 && max != current ==>
      Card(current, max).spotsText == IntToString(max - current) + " spots left"
  {
    assert IntToString(1) == "1";
  }
}
