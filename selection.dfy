/**
 * selectAndSortTrains and limitTrains: keep the records for the requested
 * pair of stations, rank them, and keep the first three.
 */
module Selection {
  import opened Trains
  import opened Ranking

  /** The number of records a query returns at most. */
  const MaxResults: nat := 3

  function Min(a: nat, b: nat): (m: nat)
  {
    if a < b then a else b
  }

  predicate Matches(t: Train, departure: int, arrival: int)
  {
    t.departureStationId == departure && t.arrivalStationId == arrival
  }

  /** The filter loop of selectAndSortTrains: the matching records, in dataset order. */
  function Select(trains: seq<Train>, departure: int, arrival: int): (r: seq<Train>)
    ensures |r| <= |trains|
  {
    if trains == [] then []
    else
      var last := trains[|trains| - 1];
      Select(trains[..|trains| - 1], departure, arrival) + (if Matches(last, departure, arrival) then [last] else [])
  }

  /** A record is selected exactly when it is in the dataset and matches both stations. */
  lemma {:induction false} SelectKeepsMatches(trains: seq<Train>, departure: int, arrival: int)
    ensures forall t :: t in Select(trains, departure, arrival) <==> t in trains && Matches(t, departure, arrival)
  {
    if trains != [] {
      var front := trains[..|trains| - 1];
      SelectKeepsMatches(front, departure, arrival);
      assert trains == front + [trains[|trains| - 1]];
    }
  }

  /** With no matching record the selection is empty. */
  lemma {:induction false} SelectNone(trains: seq<Train>, departure: int, arrival: int)
    requires forall t :: t in trains ==> !Matches(t, departure, arrival)
    ensures Select(trains, departure, arrival) == []
  {
    if trains != [] {
      var front := trains[..|trains| - 1];
      assert forall t :: t in front ==> t in trains;
      SelectNone(front, departure, arrival);
      assert trains[|trains| - 1] in trains;
    }
  }

  /** Selecting from a dataset extended by one record extends the selection by that record when it matches. */
  lemma SelectSnoc(trains: seq<Train>, t: Train, departure: int, arrival: int)
    ensures Select(trains + [t], departure, arrival) ==
              Select(trains, departure, arrival) + (if Matches(t, departure, arrival) then [t] else [])
  {
    assert (trains + [t])[..|trains|] == trains;
  }

  /** When every record matches, the selection is the whole dataset. */
  lemma {:induction false} SelectAll(trains: seq<Train>, departure: int, arrival: int)
    requires forall t :: t in trains ==> Matches(t, departure, arrival)
    ensures Select(trains, departure, arrival) == trains
  {
    if trains != [] {
      var front := trains[..|trains| - 1];
      assert forall t :: t in front ==> t in trains;
      SelectAll(front, departure, arrival);
      assert trains[|trains| - 1] in trains;
      assert front + [trains[|trains| - 1]] == trains;
    }
  }

  /** Every matching record is kept as often as it occurs, and nothing else is kept. */
  lemma {:induction false} SelectCounts(trains: seq<Train>, departure: int, arrival: int, t: Train)
    ensures multiset(Select(trains, departure, arrival))[t] ==
              if Matches(t, departure, arrival) then multiset(trains)[t] else 0
  {
    if trains != [] {
      var front := trains[..|trains| - 1];
      SelectCounts(front, departure, arrival, t);
      assert trains == front + [trains[|trains| - 1]];
    }
  }

  /** Selection distributes over concatenation, so it never reorders the records it keeps. */
  lemma {:induction false} SelectAppend(s1: seq<Train>, s2: seq<Train>, departure: int, arrival: int)
    ensures Select(s1 + s2, departure, arrival) == Select(s1, departure, arrival) + Select(s2, departure, arrival)
    decreases |s2|
  {
    if s2 == [] {
      assert s1 + s2 == s1;
    } else {
      var s2' := s2[..|s2| - 1];
      assert (s1 + s2)[..|s1 + s2| - 1] == s1 + s2';
      SelectAppend(s1, s2', departure, arrival);
    }
  }

  /** The first min(3, |s|) records of s. */
  function Limit(s: seq<Train>): (r: seq<Train>)
  {
    s[..Min(MaxResults, |s|)]
  }

  /** selectAndSortTrains as a value: select, rank when more than one record is left, keep three. */
  function SelectAndSort(trains: seq<Train>, arrival: int, departure: int, criteria: string): (r: seq<Train>)
    ensures |r| == Min(MaxResults, |Select(trains, departure, arrival)|)
  {
    var selected := Select(trains, departure, arrival);
    Limit(if |selected| > 1 then Rank(CriterionOf(criteria), selected) else selected)
  }

  lemma PrefixNotBeaten(c: Criterion, ranked: seq<Train>, k: nat, x: Train, y: Train)
    requires Ordered(c, ranked) && k <= |ranked|
    requires x in multiset(ranked) - multiset(ranked[..k]) && y in ranked[..k]
    ensures !Less(c, x, y)
  {
    assert ranked == ranked[..k] + ranked[k..];
    assert x in multiset(ranked[k..]);
    var q :| 0 <= q < |ranked[k..]| && ranked[k..][q] == x;
    var p :| 0 <= p < k && ranked[p] == y;
    assert ranked[k + q] == x;
  }

  /**
   * The answer: min(3, n) of the n matching records, in order of the
   * criterion, and no matching record left out ranks ahead of one returned.
   */
  lemma SelectAndSortIsTopThree(trains: seq<Train>, arrival: int, departure: int, criteria: string)
    ensures var r, selected, c := SelectAndSort(trains, arrival, departure, criteria),
                                  Select(trains, departure, arrival), CriterionOf(criteria);
            && |r| == Min(MaxResults, |selected|)
            && Ordered(c, r)
            && (forall t :: t in r ==> t in trains && Matches(t, departure, arrival))
            && multiset(r) <= multiset(selected)
            && (forall x, y :: x in multiset(selected) - multiset(r) && y in r ==> !Less(c, x, y))
  {
    var selected, c := Select(trains, departure, arrival), CriterionOf(criteria);
    var ranked := Rank(c, selected);
    if |selected| <= 1 {
      RankShort(c, selected);
    }
    var k := Min(MaxResults, |selected|);
    RankOrdered(c, selected);
    PrefixOfRanked(c, selected, ranked, k);
    SelectKeepsMatches(trains, departure, arrival);
  }

  /** A prefix of an ordered permutation is ordered, drawn from the records, and not beaten by what it leaves out. */
  lemma PrefixOfRanked(c: Criterion, selected: seq<Train>, ranked: seq<Train>, k: nat)
    requires Ordered(c, ranked) && multiset(ranked) == multiset(selected) && k <= |ranked|
    ensures Ordered(c, ranked[..k])
    ensures forall t :: t in ranked[..k] ==> t in selected
    ensures multiset(ranked[..k]) <= multiset(selected)
    ensures forall x, y :: x in multiset(selected) - multiset(ranked[..k]) && y in ranked[..k] ==> !Less(c, x, y)
  {
    var r := ranked[..k];
    forall t | t in r ensures t in selected {
      assert t in ranked;
      assert t in multiset(ranked);
    }
    assert ranked == r + ranked[k..];
    assert multiset(ranked) == multiset(r) + multiset(ranked[k..]);
    forall x, y | x in multiset(selected) - multiset(r) && y in r ensures !Less(c, x, y) {
      PrefixNotBeaten(c, ranked, k, x, y);
    }
  }

  /**
   * sort.Slice may order records that share an id in any way; when each id
   * names one record, every correct sort yields this same answer.
   */
  lemma SelectAndSortAnyOrderedSort(trains: seq<Train>, arrival: int, departure: int, criteria: string, sorted: seq<Train>)
    requires UniqueIds(Select(trains, departure, arrival))
    requires Ordered(CriterionOf(criteria), sorted)
    requires multiset(sorted) == multiset(Select(trains, departure, arrival))
    ensures SelectAndSort(trains, arrival, departure, criteria) == Limit(sorted)
  {
    var selected, c := Select(trains, departure, arrival), CriterionOf(criteria);
    RankIsTheOrderedPermutation(c, selected, sorted);
    if |selected| <= 1 {
      RankShort(c, selected);
    }
  }

  /** limitTrains: copies records until three are collected. */
  method LimitTrains(trains: seq<Train>) returns (newTrains: seq<Train>)
    ensures |newTrains| == Min(MaxResults, |trains|)
    ensures newTrains == trains[..|newTrains|]
  {
    newTrains := [];
    for i := 0 to |trains|
      invariant newTrains == trains[..i]
      invariant |newTrains| < MaxResults
    {
      newTrains := newTrains + [trains[i]];
      if |newTrains| == MaxResults {
        return newTrains;
      }
    }
  }

  /** selectAndSortTrains */
  method SelectAndSortTrains(trains: seq<Train>, arrival: int, departure: int, criteria: string)
    returns (sortedTrains: seq<Train>)
    ensures sortedTrains == SelectAndSort(trains, arrival, departure, criteria)
  {
    var selected: seq<Train> := [];
    for i := 0 to |trains|
      invariant selected == Select(trains[..i], departure, arrival)
    {
      assert trains[..i + 1][..i] == trains[..i];
      var v := trains[i];
      if v.departureStationId == departure && v.arrivalStationId == arrival {
        selected := selected + [v];
      }
    }
    assert trains[..|trains|] == trains;
    if |selected| > 1 {
      var a := new Train[|selected|](k requires 0 <= k < |selected| => selected[k]);
      assert a[..] == selected;
      if criteria == "price" {
        SortByPrice(a);
      } else {
        SortByTime(a, criteria);
      }
      selected := a[..];
    }
    sortedTrains := LimitTrains(selected);
  }
}
