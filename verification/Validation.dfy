/** The service's validation of a decoded measurement batch. */
module Validation {
  import opened Common
  import opened Json
  import opened Ingestion

  datatype PayloadError =
    | NotAnObject
    | ReadingsNotANonEmptyArray
    | TooManyReadings
    | ItemNotAnObject(index: nat)
    | BadSequence(index: nat)
    | DuplicateSequence(sequence: nat)
    | BadTimestamp
    | TimestampWithoutZone
    | NotNumeric(index: nat, field: string)
    | OutOfRange(index: nat, field: string)

  /** What ISO parsing makes of a text: unparsable, or parsed with or without a zone. */
  datatype Instant = Unparsable | Naive | Aware

  type Clock = string -> Instant

  function CheckNumber(value: Json, index: nat, field: string, low: real, high: real): Result<real, PayloadError> {
    if !value.IsNumber() then Err(NotNumeric(index, field))
    else if !value.AsNumber().Within(low, high) then Err(OutOfRange(index, field))
    else Ok(value.AsNumber().value)
  }

  function CheckOptional(value: Json, index: nat, field: string, low: real, high: real)
    : Result<Option<real>, PayloadError>
  {
    if value.Null? then Ok(None)
    else match CheckNumber(value, index, field, low, high)
      case Ok(v) => Ok(Some(v))
      case Err(e) => Err(e)
  }

  function CheckTimestamp(value: Json, clock: Clock): Result<string, PayloadError> {
    if !value.Str? || clock(value.text).Unparsable? then Err(BadTimestamp)
    else if clock(value.text).Naive? then Err(TimestampWithoutZone)
    else Ok(value.text)
  }

  /** One item of the batch, given the sequences of the items before it; checks in the service's order. */
  function CheckItem(item: Json, index: nat, seen: set<nat>, clock: Clock): Result<ReadingInput, PayloadError> {
    if !item.Obj? then Err(ItemNotAnObject(index))
    else if !item.Get("sequence").Int? || item.Get("sequence").whole < 0 then Err(BadSequence(index))
    else if item.Get("sequence").whole in seen then Err(DuplicateSequence(item.Get("sequence").whole))
    else match CheckTimestamp(item.Get("observed_at"), clock)
      case Err(e) => Err(e)
      case Ok(observedAt) =>
        match CheckNumber(item.Get("pm25_ug_m3"), index, "pm25_ug_m3", 0.0, 5000.0)
        case Err(e) => Err(e)
        case Ok(pm25) =>
          match CheckOptional(item.Get("temperature_c"), index, "temperature_c", -80.0, 100.0)
          case Err(e) => Err(e)
          case Ok(temperature) =>
            match CheckOptional(item.Get("relative_humidity"), index, "relative_humidity", 0.0, 100.0)
            case Err(e) => Err(e)
            case Ok(humidity) => Ok(ReadingInput(item.Get("sequence").whole, observedAt, pm25, temperature, humidity))
  }

  function Sequences(readings: seq<ReadingInput>): set<nat> {
    set r | r in readings :: r.sequence
  }

  /** The first `n` items: their readings, or the first error among them. */
  function CheckItems(items: seq<Json>, n: nat, clock: Clock): Result<seq<ReadingInput>, PayloadError>
    requires n <= |items|
  {
    if n == 0 then Ok([])
    else match CheckItems(items, n - 1, clock)
      case Err(e) => Err(e)
      case Ok(readings) =>
        match CheckItem(items[n - 1], n - 1, Sequences(readings), clock)
        case Err(e) => Err(e)
        case Ok(r) => Ok(readings + [r])
  }

  function CheckBatch(payload: Json, maxBatchSize: int, clock: Clock): Result<seq<ReadingInput>, PayloadError> {
    if !payload.Obj? then Err(NotAnObject)
    else if !payload.Get("readings").Arr? || |payload.Get("readings").items| == 0 then Err(ReadingsNotANonEmptyArray)
    else if |payload.Get("readings").items| > maxBatchSize then Err(TooManyReadings)
    else CheckItems(payload.Get("readings").items, |payload.Get("readings").items|, clock)
  }

  lemma ItemsStep(items: seq<Json>, n: nat, clock: Clock, parsed: seq<ReadingInput>)
    requires n < |items| && CheckItems(items, n, clock) == Ok(parsed)
    ensures var item := CheckItem(items[n], n, Sequences(parsed), clock);
            CheckItems(items, n + 1, clock) == if item.Ok? then Ok(parsed + [item.value]) else Err(item.error)
  {
  }

  lemma SequencesAppend(readings: seq<ReadingInput>, r: ReadingInput)
    ensures Sequences(readings + [r]) == Sequences(readings) + {r.sequence}
  {
    forall v ensures v in Sequences(readings + [r]) <==> v in Sequences(readings) || v == r.sequence {
      if v in Sequences(readings) {
        var q :| q in readings && q.sequence == v;
        assert q in readings + [r];
      }
      assert r in readings + [r];
    }
  }

  lemma {:induction false} ErrorStays(items: seq<Json>, n: nat, m: nat, clock: Clock)
    requires n <= m <= |items| && CheckItems(items, n, clock).Err?
    ensures CheckItems(items, m, clock) == CheckItems(items, n, clock)
  {
    if n == m {
    } else {
      ErrorStays(items, n, m - 1, clock);
    }
  }

  method ParseBatch(payload: Json, maxBatchSize: int, clock: Clock)
    returns (result: Result<seq<ReadingInput>, PayloadError>)
    ensures result == CheckBatch(payload, maxBatchSize, clock)
  {
    if !payload.Obj? {
      return Err(NotAnObject);
    }
    var readings := payload.Get("readings");
    if !readings.Arr? || |readings.items| == 0 {
      return Err(ReadingsNotANonEmptyArray);
    }
    if |readings.items| > maxBatchSize {
      return Err(TooManyReadings);
    }
    var parsed: seq<ReadingInput> := [];
    var seen: set<nat> := {};
    for index := 0 to |readings.items|
      invariant CheckItems(readings.items, index, clock) == Ok(parsed)
      invariant seen == Sequences(parsed)
    {
      ItemsStep(readings.items, index, clock, parsed);
      match CheckItem(readings.items[index], index, seen, clock) {
        case Err(e) =>
          ErrorStays(readings.items, index + 1, |readings.items|, clock);
          return Err(e);
        case Ok(r) =>
          SequencesAppend(parsed, r);
          seen := seen + {r.sequence};
          parsed := parsed + [r];
      }
    }
    result := Ok(parsed);
  }

  // ---- what is accepted, without reference to the order of the checks ----

  ghost predicate OptionalField(value: Json, low: real, high: real, parsed: Option<real>) {
    if value.Null? then parsed == None
    else value.IsNumber() && value.AsNumber().Within(low, high) && parsed == Some(value.AsNumber().value)
  }

  ghost predicate ItemMeans(item: Json, clock: Clock, r: ReadingInput) {
    && item.Obj?
    && item.Get("sequence") == Int(r.sequence)
    && item.Get("observed_at") == Str(r.observedAt) && clock(r.observedAt).Aware?
    && item.Get("pm25_ug_m3").IsNumber() && item.Get("pm25_ug_m3").AsNumber() == Finite(r.pm25)
    && 0.0 <= r.pm25 <= 5000.0
    && OptionalField(item.Get("temperature_c"), -80.0, 100.0, r.temperature)
    && OptionalField(item.Get("relative_humidity"), 0.0, 100.0, r.humidity)
  }

  ghost predicate DistinctSequences(readings: seq<ReadingInput>) {
    forall i, j :: 0 <= i < j < |readings| ==> readings[i].sequence != readings[j].sequence
  }

  ghost predicate ItemsMean(items: seq<Json>, clock: Clock, readings: seq<ReadingInput>) {
    && |readings| == |items|
    && DistinctSequences(readings)
    && forall i :: 0 <= i < |items| ==> ItemMeans(items[i], clock, readings[i])
  }

  lemma ItemAccepted(item: Json, index: nat, seen: set<nat>, clock: Clock, r: ReadingInput)
    ensures CheckItem(item, index, seen, clock) == Ok(r) <==> ItemMeans(item, clock, r) && r.sequence !in seen
  {
  }

  lemma ItemsMeanExtend(items: seq<Json>, n: nat, clock: Clock, earlier: seq<ReadingInput>, last: ReadingInput)
    requires 0 < n <= |items|
    ensures ItemsMean(items[..n], clock, earlier + [last]) <==>
              && ItemsMean(items[..n - 1], clock, earlier)
              && ItemMeans(items[n - 1], clock, last) && last.sequence !in Sequences(earlier)
  {
    var readings := earlier + [last];
    if ItemsMean(items[..n], clock, readings) {
      forall i | 0 <= i < |earlier| ensures ItemMeans(items[i], clock, earlier[i]) {
        assert ItemMeans(items[..n][i], clock, readings[i]);
      }
      assert ItemMeans(items[..n][n - 1], clock, readings[n - 1]);
      forall i | 0 <= i < |earlier| ensures earlier[i].sequence != last.sequence {
        assert readings[i].sequence != readings[n - 1].sequence;
      }
    }
    if ItemsMean(items[..n - 1], clock, earlier) && ItemMeans(items[n - 1], clock, last)
       && last.sequence !in Sequences(earlier) {
      forall i | 0 <= i < n ensures ItemMeans(items[..n][i], clock, readings[i]) {
        assert i < n - 1 ==> ItemMeans(items[..n - 1][i], clock, earlier[i]);
      }
      forall i | 0 <= i < |earlier| ensures earlier[i].sequence != last.sequence {
        assert earlier[i] in earlier;
      }
    }
  }

  lemma {:induction false} ItemsAccepted(items: seq<Json>, n: nat, clock: Clock, readings: seq<ReadingInput>)
    requires n <= |items|
    ensures CheckItems(items, n, clock) == Ok(readings) <==> ItemsMean(items[..n], clock, readings)
  {
    if n == 0 || |readings| == 0 {
    } else {
      var earlier, last := readings[..|readings| - 1], readings[|readings| - 1];
      assert readings == earlier + [last];
      ItemsAccepted(items, n - 1, clock, earlier);
      ItemsMeanExtend(items, n, clock, earlier, last);
      ItemAccepted(items[n - 1], n - 1, Sequences(earlier), clock, last);
    }
  }

  /** The payload is an object whose `readings` are 1 to `maxBatchSize` well-formed items meaning `readings`. */
  ghost predicate BatchMeans(payload: Json, maxBatchSize: int, clock: Clock, readings: seq<ReadingInput>) {
    && payload.Obj?
    && "readings" in payload.fields && payload.fields["readings"].Arr?
    && 1 <= |payload.fields["readings"].items| <= maxBatchSize
    && ItemsMean(payload.fields["readings"].items, clock, readings)
  }

  /**
   A batch is accepted as `readings` exactly when it is an object whose `readings` are between one and
   `maxBatchSize` objects, each well formed and in range, with pairwise different sequences.
   */
  lemma AcceptedExactly(payload: Json, maxBatchSize: int, clock: Clock, readings: seq<ReadingInput>)
    ensures CheckBatch(payload, maxBatchSize, clock) == Ok(readings) <==>
              BatchMeans(payload, maxBatchSize, clock, readings)
  {
    if payload.Obj? && payload.Get("readings").Arr? {
      var items := payload.Get("readings").items;
      ItemsAccepted(items, |items|, clock, readings);
      assert items[..|items|] == items;
    }
  }

  /** The place an error names, if it names one. */
  function IndexOf(e: PayloadError): Option<nat> {
    match e
    case ItemNotAnObject(i) => Some(i)
    case BadSequence(i) => Some(i)
    case NotNumeric(i, _) => Some(i)
    case OutOfRange(i, _) => Some(i)
    case _ => None
  }

  lemma {:induction false} FirstErrorAt(items: seq<Json>, n: nat, clock: Clock)
    returns (bad: nat, earlier: seq<ReadingInput>)
    requires n <= |items| && CheckItems(items, n, clock).Err?
    ensures bad < n && ItemsMean(items[..bad], clock, earlier)
    ensures CheckItem(items[bad], bad, Sequences(earlier), clock) == Err(CheckItems(items, n, clock).error)
  {
    if CheckItems(items, n - 1, clock).Err? {
      bad, earlier := FirstErrorAt(items, n - 1, clock);
    } else {
      bad, earlier := n - 1, CheckItems(items, n - 1, clock).value;
      ItemsAccepted(items, n - 1, clock, earlier);
    }
  }

  /**
   A refusal reports the first thing wrong: the shape of the payload, or else the first item that cannot follow
   the well-formed items before it, by its index.
   */
  lemma RefusedAtFirstError(payload: Json, maxBatchSize: int, clock: Clock) returns (bad: nat)
    requires CheckBatch(payload, maxBatchSize, clock).Err?
    ensures var e := CheckBatch(payload, maxBatchSize, clock).error;
            && (e == NotAnObject <==> !payload.Obj?)
            && (e == ReadingsNotANonEmptyArray <==>
                payload.Obj?
                && !("readings" in payload.fields && payload.fields["readings"].Arr?
                     && payload.fields["readings"].items != []))
            && (e == TooManyReadings <==>
                payload.Obj? && "readings" in payload.fields && payload.fields["readings"].Arr?
                && |payload.fields["readings"].items| > Max(0, maxBatchSize))
            && (e !in {NotAnObject, ReadingsNotANonEmptyArray, TooManyReadings} ==>
                  && payload.Obj? && "readings" in payload.fields && payload.fields["readings"].Arr?
                  && var items := payload.fields["readings"].items;
                  && bad < |items| && IndexOf(e) in {None, Some(bad)}
                  && exists earlier ::
                       && ItemsMean(items[..bad], clock, earlier)
                       && forall r :: ItemMeans(items[bad], clock, r) ==> r.sequence in Sequences(earlier))
  {
    bad := 0;
    if payload.Obj? && payload.Get("readings").Arr? && 0 < |payload.Get("readings").items| <= maxBatchSize {
      var items := payload.Get("readings").items;
      var earlier;
      bad, earlier := FirstErrorAt(items, |items|, clock);
      forall r | ItemMeans(items[bad], clock, r) ensures r.sequence in Sequences(earlier) {
        ItemAccepted(items[bad], bad, Sequences(earlier), clock, r);
      }
    }
  }
}
