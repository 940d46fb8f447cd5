/**
 * The train record and the decoding of one record from an already-decoded
 * JSON object (Train.UnmarshalJSON). Every field is read defensively: an
 * absent or wrongly typed entry becomes the field's zero value.
 */
module Trains {
  import opened Clock

  datatype Train = Train(
    trainId: int,
    departureStationId: int,
    arrivalStationId: int,
    price: real,
    arrivalTime: Time,
    departureTime: Time)

  /** A decoded JSON value, as encoding/json produces into an interface{}. */
  datatype Json =
    | JNull
    | JBool(b: bool)
    | JNumber(n: real)
    | JString(s: string)
    | JArray(elems: seq<Json>)
    | JObject(members: map<string, Json>)

  type Document = map<string, Json>

  /** The keys UnmarshalJSON reads (note "departureStationId", not the struct tag's spelling). */
  const TrainIdKey := "trainId"
  const DepartureStationIdKey := "departureStationId"
  const ArrivalStationIdKey := "arrivalStationId"
  const PriceKey := "price"
  const ArrivalTimeKey := "arrivalTime"
  const DepartureTimeKey := "departureTime"
  const FieldKeys: set<string> :=
    {TrainIdKey, DepartureStationIdKey, ArrivalStationIdKey, PriceKey, ArrivalTimeKey, DepartureTimeKey}

  /** `x, _ := v[key].(float64)`: the number, or 0 when absent or not a number. */
  function NumberField(doc: Document, key: string): (x: real)
    ensures key !in doc || !doc[key].JNumber? ==> x == 0.0
    ensures key in doc && doc[key].JNumber? ==> x == doc[key].n
  {
    if key in doc && doc[key].JNumber? then doc[key].n else 0.0
  }

  /** `s, _ := v[key].(string)`: the text, or "" when absent or not a string. */
  function StringField(doc: Document, key: string): (s: string)
    ensures key !in doc || !doc[key].JString? ==> s == ""
    ensures key in doc && doc[key].JString? ==> s == doc[key].s
  {
    if key in doc && doc[key].JString? then doc[key].s else ""
  }

  /** Go's int(float64) conversion, which truncates toward zero. */
  function Truncate(x: real): (n: int)
    ensures 0.0 <= x ==> 0 <= n && n as real <= x < n as real + 1.0
    ensures x < 0.0 ==> n <= 0 && n as real - 1.0 < x <= n as real
  {
    if 0.0 <= x then x.Floor else -((-x).Floor)
  }

  lemma TruncateWhole(n: int)
    ensures Truncate(n as real) == n
  {
  }

  /** The record UnmarshalJSON leaves in its receiver for the object doc. */
  function Decode(doc: Document): (t: Train)
    ensures t.trainId == Truncate(NumberField(doc, TrainIdKey))
    ensures t.departureStationId == Truncate(NumberField(doc, DepartureStationIdKey))
    ensures t.arrivalStationId == Truncate(NumberField(doc, ArrivalStationIdKey))
    ensures t.price == NumberField(doc, PriceKey)
    ensures t.arrivalTime == ParseTime(StringField(doc, ArrivalTimeKey))
    ensures t.departureTime == ParseTime(StringField(doc, DepartureTimeKey))
  {
    Train(
      Truncate(NumberField(doc, TrainIdKey)),
      Truncate(NumberField(doc, DepartureStationIdKey)),
      Truncate(NumberField(doc, ArrivalStationIdKey)),
      NumberField(doc, PriceKey),
      ParseTime(StringField(doc, ArrivalTimeKey)),
      ParseTime(StringField(doc, DepartureTimeKey)))
  }

  /** Train.UnmarshalJSON after the byte-level decoding: the fields are assigned one by one. */
  method UnmarshalJson(doc: Document) returns (t: Train)
    ensures t == Decode(doc)
  {
    t := Train(0, 0, 0, 0.0, ZeroTime, ZeroTime);
    var tempId := NumberField(doc, TrainIdKey);
    t := t.(trainId := Truncate(tempId));
    var tempDepId := NumberField(doc, DepartureStationIdKey);
    t := t.(departureStationId := Truncate(tempDepId));
    var tempArrId := NumberField(doc, ArrivalStationIdKey);
    t := t.(arrivalStationId := Truncate(tempArrId));
    var tempPrice := NumberField(doc, PriceKey);
    t := t.(price := tempPrice);
    var tempTime := StringField(doc, ArrivalTimeKey);
    t := t.(arrivalTime := ParseTime(tempTime));
    tempTime := StringField(doc, DepartureTimeKey);
    t := t.(departureTime := ParseTime(tempTime));
  }

  /** Decoding never fails: an empty object gives the all-zero record. */
  lemma DecodeEmpty()
    ensures Decode(map[]) == Train(0, 0, 0, 0.0, ZeroTime, ZeroTime)
  {
    EmptyTextIsZeroTime();
  }

  /** A field that is missing or of the wrong JSON type defaults to zero; the other fields are untouched. */
  lemma {:induction false} DecodeDefaults(doc: Document, key: string, v: Json)
    ensures key == TrainIdKey && !v.JNumber? ==> Decode(doc[key := v]) == Decode(doc).(trainId := 0)
    ensures key == PriceKey && !v.JNumber? ==> Decode(doc[key := v]) == Decode(doc).(price := 0.0)
    ensures key == DepartureStationIdKey && !v.JNumber? ==>
              Decode(doc[key := v]) == Decode(doc).(departureStationId := 0)
    ensures key == ArrivalStationIdKey && !v.JNumber? ==>
              Decode(doc[key := v]) == Decode(doc).(arrivalStationId := 0)
    ensures key == ArrivalTimeKey && !v.JString? ==> Decode(doc[key := v]) == Decode(doc).(arrivalTime := ZeroTime)
    ensures key == DepartureTimeKey && !v.JString? ==>
              Decode(doc[key := v]) == Decode(doc).(departureTime := ZeroTime)
    ensures key !in FieldKeys ==> Decode(doc[key := v]) == Decode(doc)
  {
    EmptyTextIsZeroTime();
  }

  /** A missing number field becomes 0; the other fields are untouched, and keys that are not fields do not matter. */
  lemma DecodeMissing(doc: Document, key: string)
    ensures key == TrainIdKey ==> Decode(doc - {key}) == Decode(doc).(trainId := 0)
    ensures key == PriceKey ==> Decode(doc - {key}) == Decode(doc).(price := 0.0)
    ensures key == DepartureStationIdKey ==> Decode(doc - {key}) == Decode(doc).(departureStationId := 0)
    ensures key == ArrivalStationIdKey ==> Decode(doc - {key}) == Decode(doc).(arrivalStationId := 0)
    ensures key !in FieldKeys ==> Decode(doc - {key}) == Decode(doc)
  {
  }

  /** A missing time field becomes the zero time; the other fields are untouched. */
  lemma DecodeMissingTime(doc: Document, key: string)
    ensures key == ArrivalTimeKey ==> Decode(doc - {key}) == Decode(doc).(arrivalTime := ZeroTime)
    ensures key == DepartureTimeKey ==> Decode(doc - {key}) == Decode(doc).(departureTime := ZeroTime)
  {
    EmptyTextIsZeroTime();
  }

  /** Each field is read from its own key alone: two objects that agree on that key agree on the field. */
  lemma DecodeFieldLocality(d1: Document, d2: Document, key: string)
    requires (key in d1 <==> key in d2) && (key in d1 ==> d1[key] == d2[key])
    ensures key == TrainIdKey ==> Decode(d1).trainId == Decode(d2).trainId
    ensures key == DepartureStationIdKey ==> Decode(d1).departureStationId == Decode(d2).departureStationId
    ensures key == ArrivalStationIdKey ==> Decode(d1).arrivalStationId == Decode(d2).arrivalStationId
    ensures key == PriceKey ==> Decode(d1).price == Decode(d2).price
    ensures key == ArrivalTimeKey ==> Decode(d1).arrivalTime == Decode(d2).arrivalTime
    ensures key == DepartureTimeKey ==> Decode(d1).departureTime == Decode(d2).departureTime
  {
  }

  /** Only the six field keys matter: objects that agree on them decode to the same record. */
  lemma DecodeReadsOnlyFieldKeys(d1: Document, d2: Document)
    requires forall k :: k in FieldKeys ==> (k in d1 <==> k in d2) && (k in d1 ==> d1[k] == d2[k])
    ensures Decode(d1) == Decode(d2)
  {
    DecodeFieldLocality(d1, d2, TrainIdKey);
    DecodeFieldLocality(d1, d2, DepartureStationIdKey);
    DecodeFieldLocality(d1, d2, ArrivalStationIdKey);
    DecodeFieldLocality(d1, d2, PriceKey);
    DecodeFieldLocality(d1, d2, ArrivalTimeKey);
    DecodeFieldLocality(d1, d2, DepartureTimeKey);
  }

  function EncodeTime(t: Time): (v: Json)
  {
    match t
    case At(s) => JString(FormatClock(s))
    case ZeroTime => JString("0001-01-01T00:00:00Z")
  }

  /** A record written as a data-file object: numbers for ids and price, "HH:MM:SS" for times. */
  function ToDocument(t: Train): (doc: Document)
    ensures doc.Keys == FieldKeys
  {
    map[TrainIdKey := JNumber(t.trainId as real),
        DepartureStationIdKey := JNumber(t.departureStationId as real),
        ArrivalStationIdKey := JNumber(t.arrivalStationId as real),
        PriceKey := JNumber(t.price),
        ArrivalTimeKey := EncodeTime(t.arrivalTime),
        DepartureTimeKey := EncodeTime(t.departureTime)]
  }

  lemma EncodeTimeRoundTrip(t: Time)
    ensures ParseTime(EncodeTime(t).s) == t
  {
    if t.At? {
      FormatThenParse(t.seconds);
    }
  }

  /** Every record survives being written as an object and decoded again. */
  lemma DecodeToDocument(t: Train)
    ensures Decode(ToDocument(t)) == t
  {
    var doc := ToDocument(t);
    assert NumberField(doc, TrainIdKey) == t.trainId as real;
    assert NumberField(doc, DepartureStationIdKey) == t.departureStationId as real;
    assert NumberField(doc, ArrivalStationIdKey) == t.arrivalStationId as real;
    assert NumberField(doc, PriceKey) == t.price;
    assert StringField(doc, ArrivalTimeKey) == EncodeTime(t.arrivalTime).s;
    assert StringField(doc, DepartureTimeKey) == EncodeTime(t.departureTime).s;
    TruncateWhole(t.trainId);
    TruncateWhole(t.departureStationId);
    TruncateWhole(t.arrivalStationId);
    EncodeTimeRoundTrip(t.arrivalTime);
    EncodeTimeRoundTrip(t.departureTime);
  }
}
