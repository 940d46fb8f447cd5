# Train query — a verified model

This project models the train-query program of `main.go`. Given a
departure station id, an arrival station id and a sort criterion, the
program:

1. checks the criterion (`checkCriteria`) and both station ids
   (`checkStation`), reporting the first failure as a departure- or
   arrival-specific error;
2. keeps the records of the dataset that run between the two stations,
   in dataset order;
3. when more than one record is left, sorts them with `sort.Slice` by
   price, departure time or arrival time, with the train id as the
   tie-break;
4. returns at most the first three.

Records come from a JSON file through `Train.UnmarshalJSON`. That
function reads each field defensively: an absent or wrongly typed field
becomes zero, and a time that does not parse becomes Go's zero time.

Modules, one per part of the program:

- `Wrappers` — `Option` and `Result`.
- `Digits` — decimal digit strings and their values. `strconv.Atoi`
  and the time parser are written with them.
- `Clock` — times of day as the records hold them. A successful
  `time.Parse("15:04:05", …)` gives a time on 1 January of year 0. A
  failed one gives the zero time, 1 January of year 1. Both sit on one
  axis of seconds, so a defaulted time compares after every parsed one.
- `Trains` — the record, a decoded JSON value, and `UnmarshalJSON` as the
  function `Decode` and the field-by-field method `UnmarshalJson`.
- `Validation` — the error values, `strconv.Atoi` on a 64-bit platform,
  `checkStation` and `checkCriteria`.
- `Ranking` — the less-functions of `sortByPrice` and `sortByTime`, and
  the order they define. `Rank` specifies the sorted result: a stable
  insertion of each record. `SortSlice` sorts the slice's backing array
  in place and is proved to produce `Rank`.
- `Selection` — the filter loop and `limitTrains`, both as loops proved
  against the functions `Select` and `Limit`. Also the whole of
  `selectAndSortTrains`.
- `Query` — `FindTrains` with the dataset as a parameter, and the test
  scenarios of `main_test.go`.

The checks run in the order the code uses: criterion, then departure
station, then arrival station. Several tests in `main_test.go` expect a
station error to be reported before an unsupported criterion:

- main_test.go:124-130 expects a bad arrival station to win over the
  criterion "priceds";
- main_test.go:226-239 expects empty stations to win over the criterion
  "departure".

The model follows the code. `Query.CriterionReportedBeforeStations`
proves that the code returns `UnsupportedCriteria` in all three cases.

The struct tag of `DepartureStationID` spells the key
`departureStationID`. `UnmarshalJSON` ignores the tags and reads
`departureStationId`, and the model follows `UnmarshalJSON`.

## Model

| member | source | states |
|---|---|---|
| Validation.CheckStation | main.go:161-173 | "" and only "" is EmptyStation; every other failure is BadStationInput; a text of digits, optionally after '+', whose value is in 1..2^63-1 succeeds with that value, leading zeros included; and every success is such a text |
| Validation.Atoi | main.go:165 | a digit string, optionally after '+', is accepted exactly when its value fits in an int, and yields that value; after '-' it is accepted exactly when the negated value fits, and yields the negated value; nothing else is accepted |
| Validation.CheckStationNonCanonical | main.go:165-172 | "007" is accepted as 7 and "+5" as 5 |
| Validation.CheckStationDecimal | main.go:165-172 | every id from 1 to the largest int, written in decimal, is accepted as itself |
| Validation.CheckStationRejectsNonDigit | main.go:165-168 | any text containing a character that is neither a digit nor a leading sign is BadStationInput |
| Validation.CheckStationRejectsNonPositive | main.go:169-171 | an integer below 1 is BadStationInput, not EmptyStation |
| Validation.CheckStationExamples | main_test.go:110-165 | " ", "19[[", "w", "serg", "0" and "-5" are BadStationInput; "" is EmptyStation |
| Validation.MessagesDistinct | main.go:62-70 | two error texts are equal exactly when the errors are the same kind |
| Validation.CheckCriteria | main.go:150-159 | the only error it reports is UnsupportedCriteria |
| Ranking.CriteriaAreOrderNames | main.go:150-159 | a criterion is accepted exactly when it names one of the three orders; an accepted name selects that order; "" is rejected |
| Ranking.CriterionOf | main.go:210-216 | "price" and only "price" sorts by price; "departure-time" and only it sorts by departure time; anything else sorts by arrival time |
| Ranking.Less | main.go:176-198 | the less-function holds exactly when the criterion's key (the price, or the instant of the chosen time) is smaller, or the keys are equal and the train id is smaller |
| Ranking.LessIsLexicographic | main.go:176-198 | each less-function is a strict order (irreflexive, asymmetric, transitive), lexicographic on (key, train id); records that tie share key and id |
| Ranking.Rank | main.go:175-201 | the ranked sequence is a permutation of its input |
| Ranking.RankOrdered | main.go:175-201 | the ranked sequence is ordered: no later record is less than an earlier one |
| Ranking.RankShort | main.go:210 | sequences of 0 or 1 records are left unchanged |
| Ranking.RankIsTheOrderedPermutation | main.go:176-198 | when records sharing an id are the same record, every ordered permutation of the input equals Rank, so any correct sort gives this answer |
| Ranking.SortSlice | main.go:176-181 | sorting the backing array in place leaves exactly Rank of its old contents |
| Ranking.SortByPrice | main.go:175-183 | the array ends up as Rank by (price, train id) of its old contents |
| Ranking.SortByTime | main.go:185-201 | the array ends up as Rank by (departure time, id) for "departure-time", and by (arrival time, id) for any other criterion |
| Selection.Select | main.go:204-208 | the filter never yields more records than the dataset holds; which records it keeps, how often and in what order is stated by the Select lemmas below |
| Selection.SelectKeepsMatches | main.go:204-208 | a record is selected exactly when it is in the dataset and matches both station ids |
| Selection.SelectCounts | main.go:204-208 | each matching record is kept as many times as it occurs; nothing else is kept |
| Selection.SelectAppend | main.go:204-208 | selection distributes over concatenation, so kept records keep their relative order |
| Selection.SelectNone | main.go:204-208 | with no matching record the selection is empty |
| Selection.SelectAll | main.go:204-208 | when every record matches, the selection is the whole dataset in its order |
| Selection.SelectAndSort | main.go:203-219 | the answer holds min(3, n) records, where n is the number of matching records; SelectAndSortIsTopThree states which records they are |
| Selection.LimitTrains | main.go:221-229 | the result is the first min(3, n) records of the input, in order |
| Selection.SelectAndSortTrains | main.go:203-219 | the filter loop, the in-place sort of more than one record, and the limit together compute SelectAndSort |
| Selection.SelectAndSortIsTopThree | main.go:203-229 | the answer holds min(3, n) of the n matching records; it is ordered; it is drawn from them; no matching record left out ranks ahead of one returned |
| Selection.SelectAndSortAnyOrderedSort | main.go:210-217 | when records sharing an id are the same record, any ordered permutation of the selection gives the same answer |
| Trains.NumberField | main.go:39-48 | a number-typed entry is read as its value; an absent or other-typed entry reads as 0 |
| Trains.StringField | main.go:53-56 | a string-typed entry is read as its text; an absent or other-typed entry reads as "" |
| Trains.Truncate | main.go:40 | int(float64) truncates toward zero: the result lies within 1 of x, on x's side of 0 |
| Trains.TruncateWhole | main.go:40 | a whole number converts to itself |
| Trains.DecodeFieldLocality | main.go:39-57 | each field is read from its own key alone: two objects that agree on that key (both absent, or equal values) decode to equal values of that field |
| Trains.DecodeReadsOnlyFieldKeys | main.go:39-57 | objects that agree on the six field keys decode to the same record |
| Trains.UnmarshalJson | main.go:33-60 | assigning the fields one by one yields Decode of the object |
| Trains.DecodeEmpty | main.go:33-60 | decoding never fails: the empty object gives the all-zero record with zero times |
| Trains.DecodeDefaults | main.go:39-57 | a field replaced by a value of the wrong JSON type becomes 0 or the zero time; the other fields are unchanged; keys that are not fields are ignored |
| Trains.DecodeMissing | main.go:39-49 | removing the trainId, departureStationId, arrivalStationId or price key turns that field into 0 and leaves the others unchanged; removing a key that is not a field changes nothing |
| Trains.DecodeMissingTime | main.go:53-57 | removing the arrivalTime or departureTime key turns that field into the zero time and leaves the others unchanged |
| Trains.EncodeTimeRoundTrip | main.go:51-57 | a time written as "HH:MM:SS", or as a text that does not parse, reads back as the same time |
| Trains.DecodeToDocument | main.go:33-60 | every record written as a data-file object decodes back to itself |
| Clock.Instant | main.go:188-196 | a parsed time lies within day 0; the zero time lies 366 days later |
| Clock.TimeOrder | main.go:188-196 | Equal holds exactly for equal times; Before is total; every parsed time is Before the zero time |
| Clock.ParseClock | main.go:51-54 | an accepted text is 7 or 8 characters long, with colons before the minutes and before the seconds |
| Clock.ParseTime | main.go:53-57 | the zero time exactly when the text does not parse, and otherwise the parsed seconds |
| Clock.FormatThenParse | main.go:51-57 | every time of day, formatted with the layout, parses back to itself |
| Clock.EmptyTextIsZeroTime | main.go:53-57 | a missing or non-string time field, read as "", becomes the zero time |
| Digits.DecimalValue | main.go:165 | the decimal digits of n have value n |
| Query.FindTrains | main.go:102-129 | a successful answer has at most three records |
| Query.FindTrainsErrors | main.go:104-122 | the full error table: UnsupportedCriteria iff the criterion is not allowed; otherwise Empty/BadDeparture iff the departure check fails with EmptyStation/BadStationInput; then the same for arrival; success iff all three checks pass |
| Query.FindTrainsAnswer | main.go:124-128 | on valid input the answer is a success holding min(3, n) matching records, ordered by the named criterion, drawn from the selection, with no left-out record ranking ahead |
| Query.FindTrainsNoMatch | main.go:124-128 | valid input with no matching record gives an empty answer and no error |
| Query.FindTrainsBothEmpty | main.go:108-114 | with both stations empty the departure station is reported |
| Query.CriterionReportedBeforeStations | main_test.go:124-130 | for each of the three inputs of main_test.go:124-130 and 226-239 the code reports UnsupportedCriteria, not the station error the tests expect |
| Query.ErrorScenarios | main_test.go:110-267 | each station-error case of the tests whose expectation matches the code's order gets exactly the expected error, including "serg" as departure and as arrival station |
| Query.CriterionScenarios | main_test.go:131-144 | the criteria "duck", "" and "awef" (main_test.go:219-225) with valid stations give UnsupportedCriteria |
| Query.PriceScenario | main_test.go:28-35 | trains 1177 and 1178 share a price and are ordered by id ahead of 1141; a record for another arrival station is not selected; a fourth match is cut off |
| Query.TimeScenarios | main_test.go:37-54 | by arrival time the answer is 978, 1316, 2201; by departure time it is 1386, 978, 1316; a record whose times did not parse ranks last |

## Left out

- `main` and `readUserInput` (main.go:72-100, 131-136): prompting on standard input and printing are I/O.
- `importData` (main.go:138-148): reading `data.json` and `log.Fatal` are I/O. The dataset is a parameter of `FindTrains`, `Select` and `SelectAndSortTrains`.
- `Train.String` (main.go:26-31): text formatting of a `float32` and of times, used only for printing.
- Byte-level JSON decoding (`json.Unmarshal`, main.go:34-37): the model starts from a decoded object of type `map<string, Json>`. A malformed document is not modelled.
- Trains.Decode: the price is a `real` read exactly, not rounded to `float32`; comparisons of prices are exact.
- Trains.Truncate: does not model the implementation-defined result of `int(float64)` for values outside the 64-bit range.
- Clock.ParseClock: does not model the fractional seconds that Go's `time.Parse` accepts after the seconds field. Such a text is treated as not parsing.
- Ranking.SortSlice: `sort.Slice` is not stable and its algorithm is not specified. The model sorts by stable insertion into one particular ordered permutation, `Rank`. Records that tie under the less-function share key and id. `Ranking.RankIsTheOrderedPermutation` shows the choice does not matter when records sharing an id are the same record. When two different records share an id, Go may order them either way.
- Validation.CheckCriteria: its own contract states only the error kind. That criteria are accepted exactly when they name one of the three orders is stated by `Ranking.CriteriaAreOrderNames`.
- Query.FindTrains: Go distinguishes a nil slice from an empty one; the model has a single empty sequence.
- `int` is taken to be 64 bits wide, as on the platforms Go targets by default.
