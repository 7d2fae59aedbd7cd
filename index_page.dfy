/**
 * The landing page's class listing: the classes, fetched in date and time
 * order with their bookings, are grouped under their date; the groups are
 * listed in the order their dates first appear, and each card shows the
 * class's number of bookings against its capacity.
 */
module IndexPage {
  import opened Js
  import opened Store
  import ClassCard

  /** A fetched class with the ids of its bookings. */
  datatype Listing = Listing(cls: ClassRow, bookingIds: seq<Id>)

  /** The date of each listing, in order. */
  function Dates(ls: seq<Listing>): (r: seq<string>)
    ensures |r| == |ls| && forall i :: 0 <= i < |ls| ==> r[i] == ls[i].cls.date
  {
    seq(|ls|, i requires 0 <= i < |ls| => ls[i].cls.date)
  }

  /** The listings on date `d`, in their listing order. */
  function OnDate(ls: seq<Listing>, d: string): seq<Listing>
    decreases |ls|
  {
    if ls == [] then []
    else OnDate(ls[..|ls| - 1], d) + (if ls[|ls| - 1].cls.date == d then [ls[|ls| - 1]] else [])
  }

  /**
   * The `reduce` that pushes each class onto the list of its date, creating
   * the list on the date's first class; `dates` is the order of the keys.
   */
  method GroupByDate(ls: seq<Listing>) returns (dates: seq<string>, groups: map<string, seq<Listing>>)
    ensures dates == InsertionOrder(Dates(ls))
    ensures forall d :: d in groups <==> d in dates
    ensures forall d :: d in groups ==> groups[d] == OnDate(ls, d)
  {
    dates, groups := [], map[];
    var k := 0;
    while k < |ls|
      invariant 0 <= k <= |ls|
      invariant dates == InsertionOrder(Dates(ls[..k]))
      invariant forall d :: d in groups <==> d in dates
      invariant forall d :: OnDate(ls[..k], d) == if d in groups then groups[d] else []
    {
      var item := ls[k];
      var date := item.cls.date;
      var group := if date in groups then groups[date] else [];
      var dates' := if date in groups then dates else dates + [date];
      var groups' := groups[date := group + [item]];
      GroupStep(ls, k, dates, groups, dates', groups');
      dates, groups := dates', groups';
      k := k + 1;
    }
    assert ls[..k] == ls;
  }

  /** One step of the `reduce` keeps the accumulator in step with the listings seen so far. */
  lemma {:induction false} GroupStep(ls: seq<Listing>, k: nat, dates: seq<string>, groups: map<string, seq<Listing>>,
                                     dates': seq<string>, groups': map<string, seq<Listing>>)
    requires k < |ls|
    requires dates == InsertionOrder(Dates(ls[..k]))
    requires forall d :: d in groups <==> d in dates
    requires forall d :: OnDate(ls[..k], d) == if d in groups then groups[d] else []
    requires dates' == if ls[k].cls.date in groups then dates else dates + [ls[k].cls.date]
    requires groups' == groups[ls[k].cls.date := (if ls[k].cls.date in groups then groups[ls[k].cls.date] else []) + [ls[k]]]
    ensures dates' == InsertionOrder(Dates(ls[..k + 1]))
    ensures forall d :: d in groups' <==> d in dates'
    ensures forall d :: OnDate(ls[..k + 1], d) == if d in groups' then groups'[d] else []
  {
    DatesStep(ls, k);
    GroupsStep(ls, k, groups, groups');
  }

  lemma {:induction false} GroupsStep(ls: seq<Listing>, k: nat, groups: map<string, seq<Listing>>, groups': map<string, seq<Listing>>)
    requires k < |ls|
    requires forall d :: OnDate(ls[..k], d) == if d in groups then groups[d] else []
    requires groups' == groups[ls[k].cls.date := (if ls[k].cls.date in groups then groups[ls[k].cls.date] else []) + [ls[k]]]
    ensures forall d :: OnDate(ls[..k + 1], d) == if d in groups' then groups'[d] else []
  {
    forall d
      ensures OnDate(ls[..k + 1], d) == if d in groups' then groups'[d] else []
    {
      OnDateStep(ls, k, d, if d in groups then groups[d] else []);
    }
  }

  lemma {:induction false} OnDateStep(ls: seq<Listing>, k: nat, d: string, g: seq<Listing>)
    requires k < |ls| && OnDate(ls[..k], d) == g
    ensures OnDate(ls[..k + 1], d) == g + (if ls[k].cls.date == d then [ls[k]] else [])
  {
    assert ls[..k + 1][..k] == ls[..k];
  }

  lemma {:induction false} DatesStep(ls: seq<Listing>, k: nat)
    requires k < |ls|
    ensures var prev := InsertionOrder(Dates(ls[..k]));
      InsertionOrder(Dates(ls[..k + 1])) == if ls[k].cls.date in prev then prev else prev + [ls[k].cls.date]
  {
    var ds := Dates(ls[..k + 1]);
    assert ds[..|ds| - 1] == Dates(ls[..k]);
    assert ds[|ds| - 1] == ls[k].cls.date;
  }

  /** The listing shows "No classes available yet." when there are no date groups. */
  predicate ShowsNoClasses(dates: seq<string>) {
    |dates| == 0
  }

  /** The card of a listing: its bookings against its capacity (a null capacity reads as 0). */
  function CardOf(l: Listing): ClassCard.CardView {
    ClassCard.Card(|l.bookingIds|, OrZero(l.cls.maxParticipants))
  }

  /** The positions in `ls` of the listings on date `d`, increasing. */
  function Positions(ls: seq<Listing>, d: string): (r: seq<nat>)
    ensures forall i :: 0 <= i < |r| ==> r[i] < |ls|
    ensures forall i, j :: 0 <= i < j < |r| ==> r[i] < r[j]
    ensures forall p :: 0 <= p < |ls| ==> (p in r <==> ls[p].cls.date == d)
    decreases |ls|
  {
    if ls == [] then []
    else
      var init := ls[..|ls| - 1];
      assert forall p :: 0 <= p < |init| ==> init[p] == ls[p];
      Positions(init, d) + (if ls[|ls| - 1].cls.date == d then [|ls| - 1] else [])
  }

  /** Sum of the group sizes over the dates `ds`. */
  function SumSizes(ls: seq<Listing>, ds: seq<string>): nat
    decreases |ds|
  {
    if ds == [] then 0 else |OnDate(ls, ds[0])| + SumSizes(ls, ds[1..])
  }

  // ---------------------------------------------------------------------------

  /** A listing is in the group of date `d` exactly when it is listed and on date `d`. */
  lemma {:induction false} OnDateMembership(ls: seq<Listing>, d: string, x: Listing)
    ensures x in OnDate(ls, d) <==> x in ls && x.cls.date == d
    decreases |ls|
  {
    if ls != [] {
      var init := ls[..|ls| - 1];
      OnDateMembership(init, d, x);
      assert ls == init + [ls[|ls| - 1]];
    }
  }

  /** Every class is in the group of its own date, and that date has a section. */
  lemma EveryClassInItsGroup(ls: seq<Listing>, i: nat)
    requires i < |ls|
    ensures ls[i] in OnDate(ls, ls[i].cls.date)
    ensures ls[i].cls.date in InsertionOrder(Dates(ls))
  {
    OnDateMembership(ls, ls[i].cls.date, ls[i]);
    assert Dates(ls)[i] == ls[i].cls.date;
  }

  /**
   * A group is exactly the listings on its date, taken in increasing listing
   * position: classes keep their fetched order inside a group.
   */
  lemma {:induction false} GroupKeepsOrder(ls: seq<Listing>, d: string)
    ensures |OnDate(ls, d)| == |Positions(ls, d)|
    ensures forall i :: 0 <= i < |OnDate(ls, d)| ==> OnDate(ls, d)[i] == ls[Positions(ls, d)[i]]
    decreases |ls|
  {
    if ls != [] {
      var init := ls[..|ls| - 1];
      GroupKeepsOrder(init, d);
    }
  }

  /** The sections come in the order in which their dates first appear in the listing. */
  lemma SectionsInFirstAppearanceOrder(ls: seq<Listing>)
    ensures forall i, j :: 0 <= i < j < |InsertionOrder(Dates(ls))| ==>
      FirstIndex(Dates(ls), InsertionOrder(Dates(ls))[i]) < FirstIndex(Dates(ls), InsertionOrder(Dates(ls))[j])
  {
    InsertionOrderByFirstAppearance(Dates(ls));
  }

  /** "No classes available yet." is shown exactly when nothing was fetched. */
  lemma EmptyIff(ls: seq<Listing>)
    ensures ShowsNoClasses(InsertionOrder(Dates(ls))) <==> ls == []
  {
    if ls != [] {
      assert Dates(ls)[0] in InsertionOrder(Dates(ls));
    }
  }

  lemma {:induction false} OnDateSnoc(ls: seq<Listing>, x: Listing, d: string)
    ensures OnDate(ls + [x], d) == OnDate(ls, d) + (if x.cls.date == d then [x] else [])
  {
    assert (ls + [x])[..|ls|] == ls;
  }

  lemma {:induction false} SumSnoc(ls: seq<Listing>, x: Listing, ds: seq<string>)
    ensures SumSizes(ls + [x], ds) == SumSizes(ls, ds) + multiset(ds)[x.cls.date]
    decreases |ds|
  {
    if ds != [] {
      SumSnoc(ls, x, ds[1..]);
      OnDateSnoc(ls, x, ds[0]);
      assert ds == [ds[0]] + ds[1..];
    }
  }

  lemma {:induction false} SumAppendDate(ls: seq<Listing>, ds: seq<string>, v: string)
    ensures SumSizes(ls, ds + [v]) == SumSizes(ls, ds) + |OnDate(ls, v)|
    decreases |ds|
  {
    if ds != [] {
      assert (ds + [v])[1..] == ds[1..] + [v];
      SumAppendDate(ls, ds[1..], v);
    } else {
      assert [] + [v] == [v];
    }
  }

  /** A date no listing has has an empty group. */
  lemma OnDateAbsent(ls: seq<Listing>, d: string)
    requires d !in Dates(ls)
    ensures OnDate(ls, d) == []
  {
    if OnDate(ls, d) != [] {
      OnDateMembership(ls, d, OnDate(ls, d)[0]);
    }
  }

  /** Grouping loses and doubles nothing: the group sizes add up to the number of classes. */
  lemma {:induction false} GroupSizesSum(ls: seq<Listing>)
    ensures SumSizes(ls, InsertionOrder(Dates(ls))) == |ls|
    decreases |ls|
  {
    if ls != [] {
      var k := |ls| - 1;
      var init, x := ls[..k], ls[k];
      assert ls[..k + 1] == ls && init + [x] == ls;
      GroupSizesSum(init);
      var prev := InsertionOrder(Dates(init));
      DatesStep(ls, k);
      SumSnoc(init, x, prev);
      if x.cls.date in prev {
        InsertionOrderDistinct(Dates(init));
        DistinctCountsOnce(prev, x.cls.date);
      } else {
        SumAppendDate(ls, prev, x.cls.date);
        OnDateSnoc(init, x, x.cls.date);
        OnDateAbsent(init, x.cls.date);
      }
    }
  }

  /** Each card counts the class's bookings, and its button is disabled exactly when they reach the capacity. */
  lemma CardFullIff(l: Listing)
    ensures CardOf(l).buttonDisabled <==> |l.bookingIds| == OrZero(l.cls.maxParticipants)
  {
    ClassCard.ButtonAgreesWithLabel(|l.bookingIds|, OrZero(l.cls.maxParticipants));
  }
}
