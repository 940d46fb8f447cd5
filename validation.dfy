/**
 * The error values of the program and the two input checks:
 * checkStation (a raw station id) and checkCriteria (the sort criterion).
 */
module Validation {
  import opened Wrappers
  import opened Digits

  /** The package-level error values, compared by kind. */
  datatype Error =
    | UnsupportedCriteria
    | EmptyStation
    | EmptyDepartureStation
    | EmptyArrivalStation
    | BadStationInput
    | BadDepartureStationInput
    | BadArrivalStationInput

  function Message(e: Error): (text: string)
  {
    match e
    case UnsupportedCriteria => "unsupported criteria"
    case EmptyStation => "empty station"
    case EmptyDepartureStation => "empty departure station"
    case EmptyArrivalStation => "empty arrival station"
    case BadStationInput => "bad station input"
    case BadDepartureStationInput => "bad departure station input"
    case BadArrivalStationInput => "bad arrival station input"
  }

  /** Comparing error texts, as the tests do, is the same as comparing kinds. */
  lemma MessagesDistinct(e1: Error, e2: Error)
    ensures Message(e1) == Message(e2) <==> e1 == e2
  {
  }

  /** The range of Go's int on a 64-bit platform. */
  const MinInt: int := -0x8000_0000_0000_0000
  const MaxInt: int := 0x7fff_ffff_ffff_ffff

  /**
   * strconv.Atoi: an optional sign '+' or '-', then at least one decimal
   * digit and nothing else; the value must fit in an int.
   */
  function Atoi(s: string): (r: Option<int>)
    ensures r.Some? ==> MinInt <= r.value <= MaxInt
    ensures r.Some? && AllDigits(s) ==> s != [] && r.value == Value(s)
    ensures s != [] && AllDigits(s) ==> (r.Some? <==> Value(s) <= MaxInt)
    ensures |s| > 1 && s[0] == '+' && AllDigits(s[1..]) ==>
              (r.Some? <==> Value(s[1..]) <= MaxInt) && (r.Some? ==> r.value == Value(s[1..]))
    ensures |s| > 1 && s[0] == '-' && AllDigits(s[1..]) ==>
              (r.Some? <==> Value(s[1..]) <= -MinInt) && (r.Some? ==> r.value == 0 - (Value(s[1..]) as int))
    ensures r.Some? ==> (s != [] && AllDigits(s)) || (|s| > 1 && (s[0] == '+' || s[0] == '-') && AllDigits(s[1..]))
  {
    if |s| > 0 && (s[0] == '+' || s[0] == '-') then
      var digits := s[1..];
      if digits != [] && AllDigits(digits) then
        var n: int := if s[0] == '-' then 0 - (Value(digits) as int) else Value(digits);
        if MinInt <= n <= MaxInt then Some(n) else None
      else None
    else if s != [] && AllDigits(s) && Value(s) <= MaxInt then Some(Value(s))
    else None
  }

  /** checkStation: a positive station id, or the reason the text is not one. */
  function CheckStation(station: string): (r: Result<int, Error>)
    ensures r.Success? ==> 1 <= r.value <= MaxInt
    ensures r.Failure? ==> r.error == EmptyStation || r.error == BadStationInput
    ensures r == Failure(EmptyStation) <==> station == ""
    ensures r.Success? ==>
              || (AllDigits(station) && Value(station) == r.value)
              || (station[0] == '+' && AllDigits(station[1..]) && Value(station[1..]) == r.value)
    ensures station != [] && AllDigits(station) && 1 <= Value(station) <= MaxInt ==> r == Success(Value(station))
    ensures |station| > 1 && station[0] == '+' && AllDigits(station[1..]) && 1 <= Value(station[1..]) <= MaxInt ==>
              r == Success(Value(station[1..]))
  {
    if station == "" then Failure(EmptyStation)
    else match Atoi(station)
      case None => Failure(BadStationInput)
      case Some(result) => if result < 1 then Failure(BadStationInput) else Success(result)
  }

  /** Every positive int written in decimal is accepted as itself. */
  lemma CheckStationDecimal(n: int)
    requires 1 <= n <= MaxInt
    ensures CheckStation(Decimal(n)) == Success(n)
  {
    var s := Decimal(n);
    DecimalValue(n);
    assert s[0] != '+' && s[0] != '-' by {
      assert IsDigit(s[0]);
    }
  }

  /** Text with a character that is neither a digit nor a leading sign is bad input. */
  lemma CheckStationRejectsNonDigit(station: string, i: nat)
    requires i < |station| && !IsDigit(station[i])
    requires i > 0 || (station[0] != '+' && station[0] != '-')
    ensures CheckStation(station) == Failure(BadStationInput)
  {
    if station[0] == '+' || station[0] == '-' {
      assert !IsDigit(station[1..][i - 1]);
    }
  }

  /** Zero and negative ids are bad input, not empty input. */
  lemma CheckStationRejectsNonPositive(station: string)
    requires Atoi(station).Some? && Atoi(station).value < 1
    ensures CheckStation(station) == Failure(BadStationInput)
  {
  }

  /** The inputs the tests use: " ", "19[[", "w" and "serg" are bad, "" is empty. */
  lemma CheckStationExamples()
    ensures CheckStation("") == Failure(EmptyStation)
    ensures CheckStation(" ") == Failure(BadStationInput)
    ensures CheckStation("19[[") == Failure(BadStationInput)
    ensures CheckStation("w") == Failure(BadStationInput)
    ensures CheckStation("serg") == Failure(BadStationInput)
    ensures CheckStation("0") == Failure(BadStationInput)
    ensures CheckStation("-5") == Failure(BadStationInput)
  {
    CheckStationRejectsNonDigit(" ", 0);
    CheckStationRejectsNonDigit("19[[", 2);
    CheckStationRejectsNonDigit("w", 0);
    CheckStationRejectsNonDigit("serg", 0);
    assert Atoi("0") == Some(0) by {
      assert Value("0") == Value("0"[..0]) * 10 + DigitValue('0');
    }
    assert "-5"[1..] == "5";
    assert Value("5") == Value("5"[..0]) * 10 + DigitValue('5');
  }

  /** Non-canonical spellings are accepted as their value: leading zeros and a leading '+'. */
  lemma CheckStationNonCanonical()
    ensures CheckStation("007") == Success(7)
    ensures CheckStation("+5") == Success(5)
  {
    assert "007"[..2] == "00" && "00"[..1] == "0" && "0"[..0] == [];
    assert Value("0") == 0 && Value("00") == 0 && Value("007") == 7;
    assert "+5"[1..] == "5" && "5"[..0] == [];
    assert Value("5") == 5;
  }

  const AllowedCriteria: set<string> := {"price", "arrival-time", "departure-time"}

  /** checkCriteria: None is Go's nil, Some(UnsupportedCriteria) the error. */
  function CheckCriteria(criteria: string): (r: Option<Error>)
    ensures r.Some? ==> r.value == UnsupportedCriteria
  {
    if criteria in AllowedCriteria then None else Some(UnsupportedCriteria)
  }
}
