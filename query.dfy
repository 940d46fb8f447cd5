/**
 * FindTrains: the query façade. The dataset, which the program reads from
 * a file, is a parameter here.
 */
module Query {
  import opened Wrappers
  import opened Clock
  import opened Trains
  import opened Validation
  import opened Ranking
  import opened Selection
  import opened Digits

  /** The criterion is checked first, then the departure station, then the arrival station. */
  function FindTrains(dataset: seq<Train>, departureStation: string, arrivalStation: string, criteria: string)
    : (r: Result<seq<Train>, Error>)
    ensures r.Success? ==> |r.value| <= MaxResults
  {
    if CheckCriteria(criteria).Some? then Failure(CheckCriteria(criteria).value)
    else match CheckStation(departureStation)
      case Failure(err) =>
        if err == BadStationInput then Failure(BadDepartureStationInput) else Failure(EmptyDepartureStation)
      case Success(departure) =>
        match CheckStation(arrivalStation)
        case Failure(err) =>
          if err == BadStationInput then Failure(BadArrivalStationInput) else Failure(EmptyArrivalStation)
        case Success(arrival) =>
          Success(SelectAndSort(dataset, arrival, departure, criteria))
  }

  /** The error FindTrains reports, stated from the raw inputs: the first failing check wins. */
  lemma FindTrainsErrors(dataset: seq<Train>, departureStation: string, arrivalStation: string, criteria: string)
    ensures var r := FindTrains(dataset, departureStation, arrivalStation, criteria);
            var criterionOk := criteria in AllowedCriteria;
            var departureOk := CheckStation(departureStation).Success?;
            var arrivalOk := CheckStation(arrivalStation).Success?;
            && (r == Failure(UnsupportedCriteria) <==> !criterionOk)
            && (r == Failure(EmptyDepartureStation) <==> criterionOk && departureStation == "")
            && (r == Failure(BadDepartureStationInput) <==> criterionOk && departureStation != "" && !departureOk)
            && (r == Failure(EmptyArrivalStation) <==> criterionOk && departureOk && arrivalStation == "")
            && (r == Failure(BadArrivalStationInput) <==>
                  criterionOk && departureOk && arrivalStation != "" && !arrivalOk)
            && (r.Success? <==> criterionOk && departureOk && arrivalOk)
  {
  }

  /** On valid input the answer is the top three of the matching records, never an error. */
  lemma FindTrainsAnswer(dataset: seq<Train>, departureStation: string, arrivalStation: string, criteria: string)
    requires criteria in AllowedCriteria
    requires CheckStation(departureStation).Success? && CheckStation(arrivalStation).Success?
    ensures var r := FindTrains(dataset, departureStation, arrivalStation, criteria);
            var departure, arrival := CheckStation(departureStation).value, CheckStation(arrivalStation).value;
            var selected := Select(dataset, departure, arrival);
            var c := CriterionOf(criteria);
            && r.Success?
            && |r.value| == Min(MaxResults, |selected|)
            && Ordered(c, r.value)
            && CriterionName(c) == criteria
            && (forall t :: t in r.value ==> t in dataset && Matches(t, departure, arrival))
            && multiset(r.value) <= multiset(selected)
            && (forall x, y :: x in multiset(selected) - multiset(r.value) && y in r.value ==> !Less(c, x, y))
  {
    var departure, arrival := CheckStation(departureStation).value, CheckStation(arrivalStation).value;
    SelectAndSortIsTopThree(dataset, arrival, departure, criteria);
    CriteriaAreOrderNames(criteria);
  }

  /** No matching record is not an error: the answer is empty. */
  lemma FindTrainsNoMatch(dataset: seq<Train>, departureStation: string, arrivalStation: string, criteria: string)
    requires criteria in AllowedCriteria
    requires CheckStation(departureStation).Success? && CheckStation(arrivalStation).Success?
    requires forall t :: t in dataset ==>
               !Matches(t, CheckStation(departureStation).value, CheckStation(arrivalStation).value)
    ensures FindTrains(dataset, departureStation, arrivalStation, criteria) == Success([])
  {
    var departure, arrival := CheckStation(departureStation).value, CheckStation(arrivalStation).value;
    SelectNone(dataset, departure, arrival);
  }

  /** With both stations empty the departure station is reported. */
  lemma FindTrainsBothEmpty(dataset: seq<Train>, criteria: string)
    requires criteria in AllowedCriteria
    ensures FindTrains(dataset, "", "", criteria) == Failure(EmptyDepartureStation)
  {
  }

  /**
   * main_test.go expects a bad arrival station to be reported before an
   * unsupported criterion, and an empty station before the criterion
   * "departure"; the code checks the criterion first and reports
   * UnsupportedCriteria in both cases.
   */
  lemma CriterionReportedBeforeStations(dataset: seq<Train>)
    ensures FindTrains(dataset, "1902", "19[[", "priceds") == Failure(UnsupportedCriteria)
    ensures FindTrains(dataset, "1902", "19[[", "priceds") != Failure(BadArrivalStationInput)
    ensures FindTrains(dataset, "", "1929", "departure") == Failure(UnsupportedCriteria)
    ensures FindTrains(dataset, "", "1929", "departure") != Failure(EmptyDepartureStation)
    ensures FindTrains(dataset, "1902", "", "departure") == Failure(UnsupportedCriteria)
    ensures FindTrains(dataset, "1902", "", "departure") != Failure(EmptyArrivalStation)
  {
  }

  lemma Station1902()
    ensures CheckStation("1902") == Success(1902)
  {
    CheckStationDecimal(1902);
    assert Decimal(1902) == "1902";
  }

  lemma Station1929()
    ensures CheckStation("1929") == Success(1929)
  {
    CheckStationDecimal(1929);
    assert Decimal(1929) == "1929";
  }

  /** The station-error scenarios of main_test.go that the code meets. */
  lemma ErrorScenarios(dataset: seq<Train>)
    ensures FindTrains(dataset, "", "1929", "price") == Failure(EmptyDepartureStation)
    ensures FindTrains(dataset, "1902", "", "price") == Failure(EmptyArrivalStation)
    ensures FindTrains(dataset, "w", "1929", "price") == Failure(BadDepartureStationInput)
    ensures FindTrains(dataset, "1902", "19[[", "price") == Failure(BadArrivalStationInput)
    ensures FindTrains(dataset, "1902", " ", "price") == Failure(BadArrivalStationInput)
    ensures FindTrains(dataset, "1902", "serg", "price") == Failure(BadArrivalStationInput)
    ensures FindTrains(dataset, "serg", "1922", "price") == Failure(BadDepartureStationInput)
  {
    Station1902();
    CheckStationExamples();
  }

  /** The unsupported-criterion scenarios of main_test.go. */
  lemma CriterionScenarios(dataset: seq<Train>)
    ensures FindTrains(dataset, "1902", "1929", "duck") == Failure(UnsupportedCriteria)
    ensures FindTrains(dataset, "1902", "1929", "") == Failure(UnsupportedCriteria)
    ensures FindTrains(dataset, "1902", "1929", "awef") == Failure(UnsupportedCriteria)
  {
  }

  function HourMinute(h: nat, m: nat): (s: DaySeconds)
    requires h < 24 && m < 60
  {
    h * 3600 + m * 60
  }

  /** Records of the price scenario of main_test.go, plus two that must not be returned. */
  const T1141 := Train(1141, 1902, 1929, 176.77, At(HourMinute(12, 15)), At(HourMinute(16, 48)))
  const T1178 := Train(1178, 1902, 1929, 164.65, At(HourMinute(10, 25)), At(HourMinute(16, 36)))
  const T1177 := Train(1177, 1902, 1929, 164.65, At(HourMinute(10, 25)), At(HourMinute(16, 36)))
  const OtherArrival := Train(2000, 1902, 1930, 100.0, At(HourMinute(9, 0)), At(HourMinute(11, 0)))
  const Dearest := Train(3000, 1902, 1929, 300.0, ZeroTime, ZeroTime)
  const ScenarioData := [T1141, OtherArrival, T1178, Dearest, T1177]

  lemma ScenarioSelection()
    ensures Select(ScenarioData, 1902, 1929) == [T1141, T1178, Dearest, T1177]
  {
    var d := ScenarioData;
    assert d[..1][..0] == [];
    assert Select(d[..1], 1902, 1929) == [T1141];
    assert d[..2][..1] == d[..1];
    assert Select(d[..2], 1902, 1929) == [T1141];
    assert d[..3][..2] == d[..2];
    assert Select(d[..3], 1902, 1929) == [T1141, T1178];
    assert d[..4][..3] == d[..3];
    assert Select(d[..4], 1902, 1929) == [T1141, T1178, Dearest];
    assert d[..5][..4] == d[..4];
    assert d[..5] == d;
  }

  lemma ScenarioOrdered()
    ensures Ordered(ByPrice, [T1177, T1178, T1141, Dearest])
  {
    var out := [T1177, T1178, T1141, Dearest];
    forall i, j | 0 <= i < j < 4
      ensures !Less(ByPrice, out[j], out[i])
    {
      assert out[i].price < out[j].price || (out[i].price == out[j].price && out[i].trainId < out[j].trainId);
    }
  }

  lemma ScenarioUnique()
    ensures UniqueIds([T1141, T1178, Dearest, T1177])
  {
    var s := [T1141, T1178, Dearest, T1177];
    forall x, y | x in s && y in s && x.trainId == y.trainId
      ensures x == y
    {
      assert x == T1141 || x == T1178 || x == Dearest || x == T1177;
      assert y == T1141 || y == T1178 || y == Dearest || y == T1177;
    }
  }

  /** The price order of the selected records, found through the uniqueness of ordered permutations. */
  lemma ScenarioRanking()
    ensures Rank(ByPrice, [T1141, T1178, Dearest, T1177]) == [T1177, T1178, T1141, Dearest]
  {
    var s := [T1141, T1178, Dearest, T1177];
    var out := [T1177, T1178, T1141, Dearest];
    ScenarioOrdered();
    ScenarioUnique();
    assert multiset(out) == multiset(s);
    RankIsTheOrderedPermutation(ByPrice, s, out);
  }

  /**
   * The price scenario of main_test.go: trains 1177 and 1178 share a price
   * and are ordered by id, ahead of the dearer 1141; the record for another
   * arrival station is not selected and the fourth match is cut off.
   */
  lemma PriceScenario()
    ensures FindTrains(ScenarioData, "1902", "1929", "price") == Success([T1177, T1178, T1141])
  {
    Station1902();
    Station1929();
    ScenarioTopThree();
  }

  lemma ScenarioTopThree()
    ensures SelectAndSort(ScenarioData, 1929, 1902, "price") == [T1177, T1178, T1141]
  {
    ScenarioSelection();
    ScenarioRanking();
    assert CriterionOf("price") == ByPrice;
    RankedSelection(ScenarioData, 1929, 1902, "price", [T1141, T1178, Dearest, T1177], [T1177, T1178, T1141, Dearest]);
  }

  lemma RankedSelection(trains: seq<Train>, arrival: int, departure: int, criteria: string,
                        selected: seq<Train>, ranked: seq<Train>)
    requires Select(trains, departure, arrival) == selected && |selected| > 1
    requires Rank(CriterionOf(criteria), selected) == ranked
    ensures SelectAndSort(trains, arrival, departure, criteria) == Limit(ranked)
  {
  }

  /**
   * Records of the time scenarios of main_test.go, plus one whose times did
   * not parse and so rank after every parsed time.
   */
  const T978 := Train(978, 1902, 1929, 258.53, At(HourMinute(4, 15)), At(HourMinute(13, 10)))
  const T1316 := Train(1316, 1902, 1929, 209.73, At(HourMinute(5, 55)), At(HourMinute(13, 52)))
  const T2201 := Train(2201, 1902, 1929, 280.0, At(HourMinute(6, 15)), At(HourMinute(14, 55)))
  const T1386 := Train(1386, 1902, 1929, 220.49, At(HourMinute(8, 30)), At(HourMinute(13, 3)))
  const Defaulted := Train(4000, 1902, 1929, 10.0, ZeroTime, ZeroTime)
  const TimeData := [T2201, T1386, Defaulted, T978, T1316]

  lemma TimeSelection()
    ensures Select(TimeData, 1902, 1929) == TimeData
  {
    SelectAll(TimeData, 1902, 1929);
  }

  lemma TimeUnique()
    ensures UniqueIds(TimeData)
  {
    var s := TimeData;
    forall x, y | x in s && y in s && x.trainId == y.trainId
      ensures x == y
    {
      assert x == T2201 || x == T1386 || x == Defaulted || x == T978 || x == T1316;
      assert y == T2201 || y == T1386 || y == Defaulted || y == T978 || y == T1316;
    }
  }

  lemma ArrivalOrdered()
    ensures Ordered(ByArrivalTime, [T978, T1316, T2201, T1386, Defaulted])
  {
    var out := [T978, T1316, T2201, T1386, Defaulted];
    forall i, j | 0 <= i < j < 5
      ensures !Less(ByArrivalTime, out[j], out[i])
    {
      assert Instant(out[i].arrivalTime) < Instant(out[j].arrivalTime);
    }
  }

  lemma DepartureOrdered()
    ensures Ordered(ByDepartureTime, [T1386, T978, T1316, T2201, Defaulted])
  {
    var out := [T1386, T978, T1316, T2201, Defaulted];
    forall i, j | 0 <= i < j < 5
      ensures !Less(ByDepartureTime, out[j], out[i])
    {
      assert Instant(out[i].departureTime) < Instant(out[j].departureTime);
    }
  }

  lemma ArrivalRanking()
    ensures Rank(ByArrivalTime, TimeData) == [T978, T1316, T2201, T1386, Defaulted]
  {
    var out := [T978, T1316, T2201, T1386, Defaulted];
    TimeUnique();
    ArrivalOrdered();
    assert multiset(out) == multiset(TimeData);
    RankIsTheOrderedPermutation(ByArrivalTime, TimeData, out);
  }

  lemma DepartureRanking()
    ensures Rank(ByDepartureTime, TimeData) == [T1386, T978, T1316, T2201, Defaulted]
  {
    var out := [T1386, T978, T1316, T2201, Defaulted];
    TimeUnique();
    DepartureOrdered();
    assert multiset(out) == multiset(TimeData);
    RankIsTheOrderedPermutation(ByDepartureTime, TimeData, out);
  }

  lemma ArrivalAnswer()
    ensures SelectAndSort(TimeData, 1929, 1902, "arrival-time") == Limit([T978, T1316, T2201, T1386, Defaulted])
  {
    TimeSelection();
    ArrivalRanking();
    assert CriterionOf("arrival-time") == ByArrivalTime;
    RankedSelection(TimeData, 1929, 1902, "arrival-time", TimeData, [T978, T1316, T2201, T1386, Defaulted]);
  }

  lemma ArrivalTopThree()
    ensures SelectAndSort(TimeData, 1929, 1902, "arrival-time") == [T978, T1316, T2201]
  {
    ArrivalAnswer();
    assert Limit([T978, T1316, T2201, T1386, Defaulted]) == [T978, T1316, T2201];
  }

  lemma DepartureAnswer()
    ensures SelectAndSort(TimeData, 1929, 1902, "departure-time") == Limit([T1386, T978, T1316, T2201, Defaulted])
  {
    TimeSelection();
    DepartureRanking();
    assert CriterionOf("departure-time") == ByDepartureTime;
    RankedSelection(TimeData, 1929, 1902, "departure-time", TimeData, [T1386, T978, T1316, T2201, Defaulted]);
  }

  lemma DepartureTopThree()
    ensures SelectAndSort(TimeData, 1929, 1902, "departure-time") == [T1386, T978, T1316]
  {
    DepartureAnswer();
    assert Limit([T1386, T978, T1316, T2201, Defaulted]) == [T1386, T978, T1316];
  }

  /**
   * The arrival-time and departure-time scenarios of main_test.go; the
   * record whose times did not parse is ranked last and cut off.
   */
  lemma TimeScenarios()
    ensures FindTrains(TimeData, "1902", "1929", "arrival-time") == Success([T978, T1316, T2201])
    ensures FindTrains(TimeData, "1902", "1929", "departure-time") == Success([T1386, T978, T1316])
  {
    Station1902();
    Station1929();
    ArrivalTopThree();
    DepartureTopThree();
  }
}
