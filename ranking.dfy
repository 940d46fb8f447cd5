/**
 * Ranking of the selected records: the less-functions that sortByPrice and
 * sortByTime hand to sort.Slice, the order they define, and the in-place sort.
 */
module Ranking {
  import opened Clock
  import opened Trains
  import opened Validation
  import opened Wrappers

  /** The key a criterion string selects; anything but "price" sorts by a time. */
  datatype Criterion = ByPrice | ByDepartureTime | ByArrivalTime

  /** The switch in selectAndSortTrains together with the test inside sortByTime. */
  function CriterionOf(criteria: string): (c: Criterion)
    ensures c == ByPrice <==> criteria == "price"
    ensures c == ByDepartureTime <==> criteria == "departure-time"
  {
    if criteria == "price" then ByPrice
    else if criteria == "departure-time" then ByDepartureTime
    else ByArrivalTime
  }

  function CriterionName(c: Criterion): (name: string)
  {
    match c
    case ByPrice => "price"
    case ByDepartureTime => "departure-time"
    case ByArrivalTime => "arrival-time"
  }

  /** checkCriteria accepts exactly the names of the three orders, and each name selects its own order. */
  lemma CriteriaAreOrderNames(criteria: string)
    ensures CheckCriteria(criteria).None? <==> exists c :: CriterionName(c) == criteria
    ensures CheckCriteria(criteria).None? ==> CriterionName(CriterionOf(criteria)) == criteria
    ensures CheckCriteria("") == Some(UnsupportedCriteria)
  {
    if criteria == "price" {
      assert CriterionName(ByPrice) == criteria;
    } else if criteria == "departure-time" {
      assert CriterionName(ByDepartureTime) == criteria;
    } else if criteria == "arrival-time" {
      assert CriterionName(ByArrivalTime) == criteria;
    }
  }

  /** The less-function given to sort.Slice: the criterion's key, then the train id. */
  function Less(c: Criterion, x: Train, y: Train): (b: bool)
    ensures c == ByPrice ==> (b <==> x.price < y.price || (x.price == y.price && x.trainId < y.trainId))
    ensures c != ByPrice ==>
              (b <==> TimeKey(c, x) < TimeKey(c, y) || (TimeKey(c, x) == TimeKey(c, y) && x.trainId < y.trainId))
  {
    match c
    case ByPrice =>
      if x.price == y.price then x.trainId < y.trainId else x.price < y.price
    case ByDepartureTime =>
      if Equal(x.departureTime, y.departureTime) then x.trainId < y.trainId
      else Before(x.departureTime, y.departureTime)
    case ByArrivalTime =>
      if Equal(x.arrivalTime, y.arrivalTime) then x.trainId < y.trainId
      else Before(x.arrivalTime, y.arrivalTime)
  }

  /** The instant of the time a criterion compares. */
  function TimeKey(c: Criterion, t: Train): (key: nat)
    requires c != ByPrice
  {
    if c == ByDepartureTime then Instant(t.departureTime) else Instant(t.arrivalTime)
  }

  /**
   * Less is the strict lexicographic order on (key, train id): irreflexive,
   * transitive, and two records neither of which is less agree on both.
   */
  lemma LessIsLexicographic(c: Criterion, x: Train, y: Train, z: Train)
    ensures !Less(c, x, x)
    ensures Less(c, x, y) ==> !Less(c, y, x)
    ensures Less(c, x, y) && Less(c, y, z) ==> Less(c, x, z)
    ensures !Less(c, x, y) && !Less(c, y, z) ==> !Less(c, x, z)
    ensures !Less(c, x, y) && !Less(c, y, x) ==> x.trainId == y.trainId
    ensures c == ByPrice ==> (Less(c, x, y) <==> x.price < y.price || (x.price == y.price && x.trainId < y.trainId))
    ensures c != ByPrice ==>
              (Less(c, x, y) <==> TimeKey(c, x) < TimeKey(c, y) || (TimeKey(c, x) == TimeKey(c, y) && x.trainId < y.trainId))
  {
  }

  /** No record comes after a record it is less than: what sort.Slice promises of its result. */
  predicate Ordered(c: Criterion, s: seq<Train>)
  {
    forall i, j :: 0 <= i < j < |s| ==> !Less(c, s[j], s[i])
  }

  /** A train id names one record: records that share an id are the same record. */
  predicate UniqueIds(s: seq<Train>)
  {
    forall x, y :: x in s && y in s && x.trainId == y.trainId ==> x == y
  }

  /**
   * Where x lands when it is moved left past every record at the end of p
   * that it is less than.
   */
  function InsertionPoint(c: Criterion, p: seq<Train>, x: Train): (k: nat)
    ensures k <= |p|
  {
    if p == [] || !Less(c, x, p[|p| - 1]) then |p| else InsertionPoint(c, p[..|p| - 1], x)
  }

  /** x is less than every record after its insertion point and not less than the one before it. */
  lemma {:induction false} InsertionPointSplits(c: Criterion, p: seq<Train>, x: Train)
    ensures forall m :: InsertionPoint(c, p, x) <= m < |p| ==> Less(c, x, p[m])
    ensures InsertionPoint(c, p, x) > 0 ==> !Less(c, x, p[InsertionPoint(c, p, x) - 1])
  {
    if p != [] && Less(c, x, p[|p| - 1]) {
      InsertionPointSplits(c, p[..|p| - 1], x);
    }
  }

  /** p with x inserted at its insertion point. */
  function Insert(c: Criterion, p: seq<Train>, x: Train): (r: seq<Train>)
    ensures multiset(r) == multiset(p) + multiset{x}
    ensures |r| == |p| + 1
  {
    var k := InsertionPoint(c, p, x);
    assert p == p[..k] + p[k..];
    p[..k] + [x] + p[k..]
  }

  /** The sorted order this model fixes: insertion of the records one at a time, left to right. */
  function Rank(c: Criterion, s: seq<Train>): (r: seq<Train>)
    ensures multiset(r) == multiset(s)
    ensures |r| == |s|
  {
    if s == [] then []
    else
      assert s == s[..|s| - 1] + [s[|s| - 1]];
      Insert(c, Rank(c, s[..|s| - 1]), s[|s| - 1])
  }

  /** The record at position i of p with x placed at position k. */
  function Placed(p: seq<Train>, k: nat, x: Train, i: nat): (t: Train)
    requires k <= |p| && i <= |p|
  {
    if i < k then p[i] else if i == k then x else p[i - 1]
  }

  lemma InsertElement(c: Criterion, p: seq<Train>, x: Train, i: nat)
    requires i <= |p|
    ensures Insert(c, p, x)[i] == Placed(p, InsertionPoint(c, p, x), x, i)
  {
  }

  /** Two positions of the inserted sequence are in order. */
  lemma PlacedInOrder(c: Criterion, p: seq<Train>, x: Train, k: nat, i: nat, j: nat)
    requires Ordered(c, p) && k <= |p| && i < j <= |p|
    requires forall m :: k <= m < |p| ==> Less(c, x, p[m])
    requires k > 0 ==> !Less(c, x, p[k - 1])
    ensures !Less(c, Placed(p, k, x, j), Placed(p, k, x, i))
  {
    if i < k && j == k {
      if i < k - 1 {
        LessIsLexicographic(c, x, p[k - 1], p[i]);
      }
    } else if i == k {
      LessIsLexicographic(c, x, p[j - 1], x);
    }
  }

  /** Inserting into an ordered sequence keeps it ordered. */
  lemma InsertOrdered(c: Criterion, p: seq<Train>, x: Train)
    requires Ordered(c, p)
    ensures Ordered(c, Insert(c, p, x))
  {
    var k := InsertionPoint(c, p, x);
    var r := Insert(c, p, x);
    InsertionPointSplits(c, p, x);
    forall i, j | 0 <= i < j < |r|
      ensures !Less(c, r[j], r[i])
    {
      InsertElement(c, p, x, i);
      InsertElement(c, p, x, j);
      PlacedInOrder(c, p, x, k, i, j);
    }
  }

  /** The ranked sequence is ordered by the criterion. */
  lemma {:induction false} RankOrdered(c: Criterion, s: seq<Train>)
    ensures Ordered(c, Rank(c, s))
  {
    if s != [] {
      RankOrdered(c, s[..|s| - 1]);
      InsertOrdered(c, Rank(c, s[..|s| - 1]), s[|s| - 1]);
    }
  }

  /** Zero or one record is left as it is. */
  lemma RankShort(c: Criterion, s: seq<Train>)
    requires |s| <= 1
    ensures Rank(c, s) == s
  {
    if |s| == 1 {
      assert s[..0] == [];
    }
  }

  /** Of two ordered arrangements of the same records with distinct ids, the first records agree. */
  lemma OrderedPermutationsSameHead(c: Criterion, a: seq<Train>, b: seq<Train>)
    requires Ordered(c, a) && Ordered(c, b)
    requires multiset(a) == multiset(b)
    requires UniqueIds(a)
    requires a != [] && b != []
    ensures a[0] == b[0]
  {
    assert a[0] in multiset(b);
    var m :| 0 <= m < |b| && b[m] == a[0];
    assert b[0] in multiset(a);
    var n :| 0 <= n < |a| && a[n] == b[0];
    if n != 0 && m != 0 {
      assert !Less(c, b[0], a[0]);
      assert !Less(c, a[0], b[0]);
      LessIsLexicographic(c, a[0], b[0], b[0]);
    }
  }

  lemma DropHead(a: seq<Train>)
    requires a != []
    ensures multiset(a[1..]) == multiset(a) - multiset{a[0]}
  {
    assert a == [a[0]] + a[1..];
  }

  /**
   * Two ordered arrangements of the same records are equal when the train
   * ids are distinct: the order leaves no freedom.
   */
  lemma {:induction false} OrderedPermutationsEqual(c: Criterion, a: seq<Train>, b: seq<Train>)
    requires Ordered(c, a) && Ordered(c, b)
    requires multiset(a) == multiset(b)
    requires UniqueIds(a)
    ensures a == b
    decreases |a|
  {
    if a != [] {
      assert |b| == |a| by {
        assert |multiset(a)| == |multiset(b)|;
      }
      OrderedPermutationsSameHead(c, a, b);
      DropHead(a);
      DropHead(b);
      OrderedPermutationsEqual(c, a[1..], b[1..]);
      assert a == [a[0]] + a[1..];
      assert b == [b[0]] + b[1..];
    }
  }

  /** When each train id names one record, any ordered permutation of the records is Rank's arrangement. */
  lemma RankIsTheOrderedPermutation(c: Criterion, s: seq<Train>, out: seq<Train>)
    requires Ordered(c, out) && multiset(out) == multiset(s)
    requires UniqueIds(s)
    ensures out == Rank(c, s)
  {
    RankOrdered(c, s);
    var r := Rank(c, s);
    assert UniqueIds(r) by {
      forall x | x in r ensures x in s {
        assert x in multiset(r);
      }
    }
    OrderedPermutationsEqual(c, r, out);
  }

  /**
   * Shifts the records at the end of a[..i] that x is less than one place
   * to the right and returns the index of the gap this leaves.
   */
  method OpenGap(a: array<Train>, c: Criterion, i: nat, x: Train) returns (j: nat)
    requires i < a.Length
    modifies a
    ensures j == InsertionPoint(c, old(a[..i]), x)
    ensures forall k :: 0 <= k < j ==> a[k] == old(a[k])
    ensures forall k :: j < k <= i ==> a[k] == old(a[k - 1])
    ensures forall k :: i < k < a.Length ==> a[k] == old(a[k])
  {
    ghost var p := a[..i];
    j := i;
    assert p[..j] == p;
    while j > 0 && Less(c, x, a[j - 1])
      invariant 0 <= j <= i
      invariant forall k :: 0 <= k < j ==> a[k] == p[k]
      invariant forall k :: j < k <= i ==> a[k] == p[k - 1]
      invariant forall k :: i < k < a.Length ==> a[k] == old(a[k])
      invariant InsertionPoint(c, p, x) == InsertionPoint(c, p[..j], x)
    {
      InsertionPointStep(c, p, x, j);
      a[j] := a[j - 1];
      j := j - 1;
    }
    InsertionPointStop(c, p, x, j);
  }

  lemma InsertionPointStep(c: Criterion, p: seq<Train>, x: Train, j: nat)
    requires 0 < j <= |p| && Less(c, x, p[j - 1])
    ensures InsertionPoint(c, p[..j], x) == InsertionPoint(c, p[..j - 1], x)
  {
    assert p[..j][..j - 1] == p[..j - 1];
  }

  lemma InsertionPointStop(c: Criterion, p: seq<Train>, x: Train, j: nat)
    requires j <= |p| && (j == 0 || !Less(c, x, p[j - 1]))
    ensures InsertionPoint(c, p[..j], x) == j
  {
  }

  /** Moves a[i] left into the prefix a[..i], past the records at its end that it is less than. */
  method InsertIntoPrefix(a: array<Train>, c: Criterion, i: nat)
    requires i < a.Length
    modifies a
    ensures a[..] == Insert(c, old(a[..i]), old(a[i])) + old(a[i + 1..])
  {
    ghost var p, rest := a[..i], a[i + 1..];
    var x := a[i];
    var j := OpenGap(a, c, i, x);
    a[j] := x;
    Assemble(a[..], p, x, rest, j);
  }

  lemma Assemble(a: seq<Train>, p: seq<Train>, x: Train, rest: seq<Train>, j: nat)
    requires j <= |p| && |a| == |p| + 1 + |rest|
    requires forall k :: 0 <= k < j ==> a[k] == p[k]
    requires a[j] == x
    requires forall k :: j < k <= |p| ==> a[k] == p[k - 1]
    requires forall k :: |p| < k < |a| ==> a[k] == rest[k - |p| - 1]
    ensures a == p[..j] + [x] + p[j..] + rest
  {
  }

  lemma Split(a: seq<Train>, r: seq<Train>, s: seq<Train>, i: nat)
    requires i < |s| && |r| == i && a == r + s[i..]
    ensures a[..i] == r && a[i] == s[i] && a[i + 1..] == s[i + 1..]
  {
  }

  lemma RankPrefix(c: Criterion, s: seq<Train>, i: nat)
    requires i < |s|
    ensures Rank(c, s[..i + 1]) == Insert(c, Rank(c, s[..i]), s[i])
  {
    assert s[..i + 1][..i] == s[..i];
  }

  /** Extends the ranked prefix of a by one record. */
  method SortStep(a: array<Train>, c: Criterion, ghost s: seq<Train>, i: nat)
    requires i < a.Length == |s| && a[..] == Rank(c, s[..i]) + s[i..]
    modifies a
    ensures a[..] == Rank(c, s[..i + 1]) + s[i + 1..]
  {
    Split(a[..], Rank(c, s[..i]), s, i);
    InsertIntoPrefix(a, c, i);
    RankPrefix(c, s, i);
  }

  /** sort.Slice on the backing array; this model performs the insertion that Rank describes. */
  method SortSlice(a: array<Train>, c: Criterion)
    modifies a
    ensures a[..] == Rank(c, old(a[..]))
  {
    ghost var s := a[..];
    var i := 0;
    while i < a.Length
      invariant 0 <= i <= a.Length
      invariant a[..] == Rank(c, s[..i]) + s[i..]
    {
      SortStep(a, c, s, i);
      i := i + 1;
    }
    assert s[..a.Length] == s;
  }

  /** sortByPrice */
  method SortByPrice(a: array<Train>)
    modifies a
    ensures a[..] == Rank(ByPrice, old(a[..]))
  {
    SortSlice(a, ByPrice);
  }

  /** sortByTime: departure time for "departure-time", arrival time for anything else. */
  method SortByTime(a: array<Train>, criteria: string)
    modifies a
    ensures a[..] == Rank(if criteria == "departure-time" then ByDepartureTime else ByArrivalTime, old(a[..]))
  {
    SortSlice(a, if criteria == "departure-time" then ByDepartureTime else ByArrivalTime);
  }
}
