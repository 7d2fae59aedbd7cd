/**
 * The "What do you want to learn?" form on the landing page: the popular
 * interests (the three most frequent among the fetched rows) and the
 * submission of a new interest.
 */
module LearningInterest {
  import opened Js
  import opened Store

  /** An interest and how many fetched rows name it. */
  datatype Entry = Entry(interest: string, count: nat)

  /**
   * The `forEach` that counts each interest in a dictionary: the keys in the
   * order they were first met, and for each its number of rows. Every
   * interest is an ordinary key here, as in a map with no inherited entries.
   */
  method CountInterests(rows: seq<string>) returns (keys: seq<string>, counts: map<string, nat>)
    ensures keys == InsertionOrder(rows)
    ensures forall k :: k in counts <==> k in rows
    ensures forall k :: k in counts ==> counts[k] == multiset(rows)[k]
  {
    keys, counts := [], map[];
    var i := 0;
    while i < |rows|
      invariant 0 <= i <= |rows|
      invariant keys == InsertionOrder(rows[..i])
      invariant forall k :: k in counts <==> k in rows[..i]
      invariant forall k :: k in counts ==> counts[k] == multiset(rows[..i])[k]
    {
      var item := rows[i];
      CountStep(rows, i);
      if item !in counts {
        keys := keys + [item];
      }
      counts := counts[item := (if item in counts then counts[item] else 0) + 1];
      i := i + 1;
    }
    assert rows[..i] == rows;
  }

  lemma {:induction false} CountStep(rows: seq<string>, i: nat)
    requires i < |rows|
    ensures var prev := InsertionOrder(rows[..i]);
      InsertionOrder(rows[..i + 1]) == if rows[i] in prev then prev else prev + [rows[i]]
    ensures multiset(rows[..i + 1]) == multiset(rows[..i]) + multiset{rows[i]}
    ensures forall k :: k in rows[..i + 1] <==> k in rows[..i] || k == rows[i]
  {
    assert rows[..i + 1][..i] == rows[..i];
    assert rows[..i + 1] == rows[..i] + [rows[i]];
  }

  /** Counts in non-increasing order, each against the next. */
  predicate NonIncreasing(es: seq<Entry>) {
    forall i :: 0 < i < |es| ==> es[i - 1].count >= es[i].count
  }

  /**
   * Places `x` before the first entry with a count it reaches: entries of
   * equal count keep their order, as the stable `sort` does.
   */
  function InsertByCount(x: Entry, ys: seq<Entry>): (r: seq<Entry>)
    requires NonIncreasing(ys)
    ensures NonIncreasing(r)
    ensures multiset(r) == multiset(ys) + multiset{x}
    ensures |r| == |ys| + 1 && (r[0] == x || (ys != [] && r[0] == ys[0]))
    decreases |ys|
  {
    if ys == [] || x.count >= ys[0].count then [x] + ys
    else
      assert ys == [ys[0]] + ys[1..];
      [ys[0]] + InsertByCount(x, ys[1..])
  }

  /** `sort(([, a], [, b]) => b - a)`: most frequent first. */
  function SortByCount(es: seq<Entry>): (r: seq<Entry>)
    ensures NonIncreasing(r)
    ensures multiset(r) == multiset(es)
    decreases |es|
  {
    if es == [] then []
    else
      assert es == [es[0]] + es[1..];
      InsertByCount(es[0], SortByCount(es[1..]))
  }

  /** The entry of each key, with its count. */
  function Entries(keys: seq<string>, counts: map<string, nat>): (r: seq<Entry>)
    requires forall k :: k in keys ==> k in counts
    ensures |r| == |keys| && forall i :: 0 <= i < |r| ==> r[i] == Entry(keys[i], counts[keys[i]])
  {
    seq(|keys|, i requires 0 <= i < |keys| => Entry(keys[i], counts[keys[i]]))
  }

  /** No two entries name the same interest. */
  predicate DistinctInterests(es: seq<Entry>) {
    forall i, j :: 0 <= i < j < |es| ==> es[i].interest != es[j].interest
  }

  /**
   * `fetchPopularInterests` after the fetch: count, sort, keep the first
   * three, and take their names.
   */
  method PopularInterests(rows: seq<string>) returns (popular: seq<string>)
    ensures |popular| == if |InsertionOrder(rows)| < 3 then |InsertionOrder(rows)| else 3
    ensures forall i :: 0 <= i < |popular| ==> popular[i] in rows
    ensures forall i, j :: 0 <= i < j < |popular| ==> popular[i] != popular[j]
    ensures forall i, j :: 0 <= i < j < |popular| ==> multiset(rows)[popular[i]] >= multiset(rows)[popular[j]]
    ensures forall k, i :: k in rows && k !in popular && 0 <= i < |popular| ==> multiset(rows)[k] <= multiset(rows)[popular[i]]
  {
    var keys, counts := CountInterests(rows);
    var es := Entries(keys, counts);
    var sorted := SortByCount(es);
    var n := if |sorted| < 3 then |sorted| else 3;
    popular := seq(n, i requires 0 <= i < n => sorted[i].interest);
    TopThree(rows, keys, counts, es, sorted, popular);
  }

  /** The first three names of the sorted entries are the most frequent interests. */
  lemma TopThree(rows: seq<string>, keys: seq<string>, counts: map<string, nat>, es: seq<Entry>,
                 sorted: seq<Entry>, popular: seq<string>)
    requires keys == InsertionOrder(rows)
    requires forall k :: k in counts <==> k in rows
    requires forall k :: k in counts ==> counts[k] == multiset(rows)[k]
    requires es == Entries(keys, counts)
    requires NonIncreasing(sorted) && multiset(sorted) == multiset(es)
    requires |popular| == (if |sorted| < 3 then |sorted| else 3)
    requires forall i :: 0 <= i < |popular| ==> popular[i] == sorted[i].interest
    ensures |popular| == if |InsertionOrder(rows)| < 3 then |InsertionOrder(rows)| else 3
    ensures forall i :: 0 <= i < |popular| ==> popular[i] in rows
    ensures forall i, j :: 0 <= i < j < |popular| ==> popular[i] != popular[j]
    ensures forall i, j :: 0 <= i < j < |popular| ==> multiset(rows)[popular[i]] >= multiset(rows)[popular[j]]
    ensures forall k, i :: k in rows && k !in popular && 0 <= i < |popular| ==> multiset(rows)[k] <= multiset(rows)[popular[i]]
  {
    InsertionOrderDistinct(rows);
    EntriesFacts(rows, keys, counts, es);
    SortedFacts(rows, es, sorted);
    ExcludedNotHigher(rows, sorted, popular, |popular|);
  }

  /** The entries: one per distinct interest, each with its number of rows. */
  lemma EntriesFacts(rows: seq<string>, keys: seq<string>, counts: map<string, nat>, es: seq<Entry>)
    requires keys == InsertionOrder(rows)
    requires forall i, j :: 0 <= i < j < |keys| ==> keys[i] != keys[j]
    requires forall k :: k in counts <==> k in rows
    requires forall k :: k in counts ==> counts[k] == multiset(rows)[k]
    requires es == Entries(keys, counts)
    ensures DistinctInterests(es)
    ensures forall e :: e in es ==> e.interest in rows && e.count == multiset(rows)[e.interest]
    ensures forall k :: k in rows ==> Entry(k, multiset(rows)[k]) in es
  {
    forall k | k in rows
      ensures Entry(k, multiset(rows)[k]) in es
    {
      var p :| 0 <= p < |keys| && keys[p] == k;
      assert es[p] == Entry(k, multiset(rows)[k]);
    }
  }

  /**
   * A permutation of the entries keeps their interests distinct and their
   * counts, and is as long.
   */
  lemma SortedFacts(rows: seq<string>, es: seq<Entry>, sorted: seq<Entry>)
    requires DistinctInterests(es)
    requires forall e :: e in es ==> e.interest in rows && e.count == multiset(rows)[e.interest]
    requires multiset(sorted) == multiset(es)
    ensures |sorted| == |es|
    ensures DistinctInterests(sorted)
    ensures forall e :: e in sorted <==> e in es
  {
    assert |multiset(sorted)| == |multiset(es)|;
    forall e
      ensures e in sorted <==> e in es
    {
      assert e in sorted <==> e in multiset(sorted);
      assert e in es <==> e in multiset(es);
    }
    forall i, j | 0 <= i < j < |sorted|
      ensures sorted[i].interest != sorted[j].interest
    {
      if sorted[i].interest == sorted[j].interest {
        assert sorted[i] in es && sorted[j] in es;
        assert sorted[i] == sorted[j];
        RepeatCountsTwice(sorted, i, j);
        var p :| 0 <= p < |es| && es[p] == sorted[i];
        assert forall q, r :: 0 <= q < r < |es| ==> es[q] != es[r];
        DistinctCountsOnce(es, sorted[i]);
      }
    }
  }

  /** In a non-increasing list, every entry has a count no larger than any entry before it. */
  lemma {:induction false} NonIncreasingPairwise(es: seq<Entry>, i: nat, j: nat)
    requires NonIncreasing(es) && i <= j < |es|
    ensures es[i].count >= es[j].count
    decreases j - i
  {
    if i < j {
      NonIncreasingPairwise(es, i, j - 1);
    }
  }

  /** Nothing left out of the first `n` has a higher count than one kept. */
  lemma ExcludedNotHigher(rows: seq<string>, sorted: seq<Entry>, popular: seq<string>, n: nat)
    requires NonIncreasing(sorted) && DistinctInterests(sorted)
    requires forall e :: e in sorted ==> e.interest in rows && e.count == multiset(rows)[e.interest]
    requires forall k :: k in rows ==> Entry(k, multiset(rows)[k]) in sorted
    requires n <= |sorted| && (n == |sorted| || n == 3)
    requires |popular| == n && forall i :: 0 <= i < n ==> popular[i] == sorted[i].interest
    ensures forall i :: 0 <= i < |popular| ==> popular[i] in rows
    ensures forall i, j :: 0 <= i < j < |popular| ==> popular[i] != popular[j]
    ensures forall i, j :: 0 <= i < j < |popular| ==> multiset(rows)[popular[i]] >= multiset(rows)[popular[j]]
    ensures forall k, i :: k in rows && k !in popular && 0 <= i < |popular| ==> multiset(rows)[k] <= multiset(rows)[popular[i]]
  {
    forall i | 0 <= i < n
      ensures popular[i] in rows && sorted[i].count == multiset(rows)[popular[i]]
    {
      assert sorted[i] in sorted;
    }
    forall i, j | 0 <= i < j < n
      ensures multiset(rows)[popular[i]] >= multiset(rows)[popular[j]]
    {
      NonIncreasingPairwise(sorted, i, j);
    }
    forall p | 0 <= p < n
      ensures sorted[p].interest in popular
    {
      assert popular[p] == sorted[p].interest;
    }
    forall k, i | k in rows && k !in popular && 0 <= i < n
      ensures multiset(rows)[k] <= multiset(rows)[popular[i]]
    {
      var p :| 0 <= p < |sorted| && sorted[p] == Entry(k, multiset(rows)[k]);
      NonIncreasingPairwise(sorted, i, p);
    }
  }

  // ---------------------------------------------------------------------------
  // Submitting an interest

  datatype SubmitOutcome = InvalidInput | SubmitError | Recorded

  datatype Run = Run(outcome: SubmitOutcome, writes: seq<Write>)

  /** `user?.id || null`. */
  function UserIdOrNull(user: Option<Id>): Option<Id> {
    if user.Some? && user.value != [] then user else None
  }

  /** `handleSubmit`: refuse blank or over-long input, else store it trimmed. */
  function SubmitRun(interest: string, user: Option<Id>, fails: bool): Run {
    if Trim(interest) == [] || Utf16Length(interest) > 30 then Run(InvalidInput, [])
    else if fails then Run(SubmitError, [])
    else Run(Recorded, [InsertInterest(InterestRow(Trim(interest), UserIdOrNull(user)))])
  }

  /** The form's own state: what is typed in the box. */
  class InterestForm {
    var interest: string

    constructor ()
      ensures interest == ""
    {
      interest := "";
    }

    method Type(text: string)
      modifies this
      ensures interest == text
    {
      interest := text;
    }

    /** Submits; the box is cleared only once the interest is stored. */
    method Submit(db: Backend, user: Option<Id>, fails: bool) returns (o: SubmitOutcome)
      modifies this, db
      ensures o == SubmitRun(old(interest), user, fails).outcome
      ensures db.State() == ApplyAll(old(db.State()), SubmitRun(old(interest), user, fails).writes)
      ensures interest == if o == Recorded then "" else old(interest)
    {
      if Trim(interest) == [] || Utf16Length(interest) > 30 {
        return InvalidInput;
      }
      var w := InsertInterest(InterestRow(Trim(interest), UserIdOrNull(user)));
      ghost var s0 := db.State();
      var ok := db.Perform(w, fails);
      if !ok {
        return SubmitError;
      }
      ApplyAllAppend(s0, [], w);
      assert [] + [w] == [w];
      interest := "";
      o := Recorded;
    }
  }

  // ---------------------------------------------------------------------------

  /** Input is refused exactly when it is all white space or longer than 30 characters, and then nothing is stored. */
  lemma RefusedIff(interest: string, user: Option<Id>, fails: bool)
    ensures SubmitRun(interest, user, fails).outcome == InvalidInput <==> AllSpace(interest) || Utf16Length(interest) > 30
    ensures SubmitRun(interest, user, fails).outcome == InvalidInput ==> SubmitRun(interest, user, fails).writes == []
  {
    TrimEmptyIff(interest);
  }

  /**
   * A stored interest is the input trimmed: not empty, without white space at
   * either end, at most 30 characters; its user is null when signed out.
   */
  lemma StoredIsTrimmed(interest: string, user: Option<Id>)
    requires SubmitRun(interest, user, false).outcome == Recorded
    ensures var row := SubmitRun(interest, user, false).writes[0].row;
      && row.interest == Trim(interest) && row.interest != []
      && Trim(row.interest) == row.interest
      && !IsSpace(row.interest[0]) && !IsSpace(row.interest[|row.interest| - 1])
      && Utf16Length(row.interest) <= 30
      && (user.None? ==> row.userId.None?)
  {
    TrimIdempotent(interest);
    TrimIsInfix(interest);
    TrimShortens(interest);
  }
}
