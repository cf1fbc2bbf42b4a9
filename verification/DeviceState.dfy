/** The device's persisted upload state and the checks made on a state document before it is trusted. */
module DeviceState {
  import opened Common
  import opened Json

  datatype Reading = Reading(sequence: int, observedAt: string, pm25: real)

  datatype State = State(
    nextSequence: int, pending: seq<Reading>, dropped: int,
    attempts: int, failures: int, lastStatus: Option<int>, lastAcknowledged: Option<int>)

  const DEFAULT_STATE := State(1, [], 0, 0, 0, None, None)

  datatype StateError =
    | InvalidDocument | InvalidNextSequence | InvalidQueue | InvalidReading
    | InvalidDropped | InvalidCounter | InvalidStatus | InvalidAcknowledged

  // ---- documents ----

  function OptionalInt(value: Option<int>): Json {
    match value
    case None => Null
    case Some(v) => Int(v)
  }

  function ReadingDocument(r: Reading): Json {
    Obj(map["sequence" := Int(r.sequence), "observed_at" := Str(r.observedAt), "pm25_ug_m3" := Float(Finite(r.pm25))])
  }

  function ReadingDocuments(rs: seq<Reading>): (items: seq<Json>)
    ensures |items| == |rs|
  {
    seq(|rs|, i requires 0 <= i < |rs| => ReadingDocument(rs[i]))
  }

  /** The document `save` writes. */
  function StateDocument(s: State): Json {
    Obj(map[
      "next_sequence" := Int(s.nextSequence),
      "pending" := Arr(ReadingDocuments(s.pending)),
      "dropped_readings" := Int(s.dropped),
      "upload_attempts" := Int(s.attempts),
      "upload_failures" := Int(s.failures),
      "last_http_status" := OptionalInt(s.lastStatus),
      "last_acknowledged_sequence" := OptionalInt(s.lastAcknowledged)])
  }

  // ---- reading a document back ----

  /** One pending reading, which must lie strictly between the one before it and the next sequence. */
  function CheckReading(item: Json, last: int, nextSequence: int): Option<Reading> {
    if !item.Obj? then None
    else
      var sequence := item.Get("sequence");
      var observedAt := item.Get("observed_at");
      var pm25 := item.Get("pm25_ug_m3");
      if !sequence.Int? || sequence.whole <= last || sequence.whole >= nextSequence || !observedAt.Str?
         || !pm25.IsNumber() || !pm25.AsNumber().Within(0.0, 5000.0)
      then None
      else Some(Reading(sequence.whole, observedAt.text, pm25.AsNumber().value))
  }

  function LastSequence(rs: seq<Reading>): int {
    if |rs| == 0 then 0 else rs[|rs| - 1].sequence
  }

  function CheckReadings(items: seq<Json>, n: nat, nextSequence: int): Option<seq<Reading>>
    requires n <= |items|
  {
    if n == 0 then Some([])
    else match CheckReadings(items, n - 1, nextSequence)
      case None => None
      case Some(rs) =>
        match CheckReading(items[n - 1], LastSequence(rs), nextSequence)
        case None => None
        case Some(r) => Some(rs + [r])
  }

  /** `dict.setdefault(name, default)` on a document that may predate the field. */
  function GetOrDefault(value: Json, name: string, default: Json): Json
    requires value.Obj?
  {
    if name in value.fields then value.fields[name] else default
  }

  predicate IsCounter(value: Json) {
    value.Int? && value.whole >= 0
  }

  predicate IsNullOrWithin(value: Json, low: int, high: int) {
    value.Null? || (value.Int? && low <= value.whole <= high)
  }

  function ToOption(value: Json): Option<int> {
    if value.Int? then Some(value.whole) else None
  }

  /** The fields after the queue, in the order they are checked. */
  function CheckCounters(value: Json, nextSequence: int, pending: seq<Reading>): Result<State, StateError>
    requires value.Obj?
  {
    var dropped := GetOrDefault(value, "dropped_readings", Int(0));
    var attempts := GetOrDefault(value, "upload_attempts", Int(0));
    var failures := GetOrDefault(value, "upload_failures", Int(0));
    var status := GetOrDefault(value, "last_http_status", Null);
    var acknowledged := GetOrDefault(value, "last_acknowledged_sequence", Null);
    if !IsCounter(dropped) then Err(InvalidDropped)
    else if !IsCounter(attempts) || !IsCounter(failures) then Err(InvalidCounter)
    else if !IsNullOrWithin(status, 100, 599) then Err(InvalidStatus)
    else if !IsNullOrWithin(acknowledged, 1, nextSequence - 1) then Err(InvalidAcknowledged)
    else Ok(State(nextSequence, pending, dropped.whole, attempts.whole, failures.whole,
                  ToOption(status), ToOption(acknowledged)))
  }

  function CheckDocument(value: Json): Result<State, StateError> {
    if !value.Obj? then Err(InvalidDocument)
    else
      var next := value.Get("next_sequence");
      var pending := value.Get("pending");
      if !next.Int? || next.whole < 1 then Err(InvalidNextSequence)
      else if !pending.Arr? then Err(InvalidQueue)
      else match CheckReadings(pending.items, |pending.items|, next.whole)
        case None => Err(InvalidReading)
        case Some(rs) => CheckCounters(value, next.whole, rs)
  }

  lemma {:induction false} RejectionStays(items: seq<Json>, n: nat, m: nat, nextSequence: int)
    requires n <= m <= |items| && CheckReadings(items, n, nextSequence).None?
    ensures CheckReadings(items, m, nextSequence).None?
  {
    if n == m {
    } else {
      RejectionStays(items, n, m - 1, nextSequence);
    }
  }

  method ReadDocument(value: Json) returns (result: Result<State, StateError>)
    ensures result == CheckDocument(value)
  {
    if !value.Obj? {
      return Err(InvalidDocument);
    }
    var next := value.Get("next_sequence");
    if !next.Int? || next.whole < 1 {
      return Err(InvalidNextSequence);
    }
    var pending := value.Get("pending");
    if !pending.Arr? {
      return Err(InvalidQueue);
    }
    var readings: seq<Reading> := [];
    var lastSequence := 0;
    for i := 0 to |pending.items|
      invariant CheckReadings(pending.items, i, next.whole) == Some(readings)
      invariant lastSequence == LastSequence(readings)
    {
      match CheckReading(pending.items[i], lastSequence, next.whole) {
        case None =>
          RejectionStays(pending.items, i + 1, |pending.items|, next.whole);
          return Err(InvalidReading);
        case Some(r) =>
          readings := readings + [r];
          lastSequence := r.sequence;
      }
    }
    result := CheckCounters(value, next.whole, readings);
  }

  // ---- which states survive being saved and read back ----

  predicate ReadingReadable(r: Reading, last: int, nextSequence: int) {
    last < r.sequence < nextSequence && 0.0 <= r.pm25 <= 5000.0
  }

  /** The first `n` readings are in range, strictly increasing from 1 and below the next sequence. */
  ghost predicate QueueReadable(rs: seq<Reading>, n: nat, nextSequence: int)
    requires n <= |rs|
  {
    forall i :: 0 <= i < n ==> ReadingReadable(rs[i], LastSequence(rs[..i]), nextSequence)
  }

  predicate StatusReadable(status: Option<int>) {
    status.None? || 100 <= status.value <= 599
  }

  ghost predicate Readable(s: State) {
    && s.nextSequence >= 1
    && QueueReadable(s.pending, |s.pending|, s.nextSequence)
    && s.dropped >= 0 && s.attempts >= 0 && s.failures >= 0
    && StatusReadable(s.lastStatus)
    && (s.lastAcknowledged.None? || 1 <= s.lastAcknowledged.value < s.nextSequence)
  }

  lemma ReadingRoundTrip(r: Reading, last: int, nextSequence: int)
    ensures CheckReading(ReadingDocument(r), last, nextSequence)
            == if ReadingReadable(r, last, nextSequence) then Some(r) else None
  {
    var item := ReadingDocument(r);
    assert item.Get("sequence") == Int(r.sequence);
    assert item.Get("pm25_ug_m3") == Float(Finite(r.pm25));
  }

  lemma QueueReadableStep(rs: seq<Reading>, n: nat, nextSequence: int)
    requires 0 < n <= |rs|
    ensures QueueReadable(rs, n, nextSequence) <==>
              QueueReadable(rs, n - 1, nextSequence)
              && ReadingReadable(rs[n - 1], LastSequence(rs[..n - 1]), nextSequence)
  {
  }

  /** One more reading of a queue's documents. */
  lemma CheckReadingsStep(rs: seq<Reading>, n: nat, nextSequence: int)
    requires 0 < n <= |rs|
    ensures var items, earlier := ReadingDocuments(rs), CheckReadings(ReadingDocuments(rs), n - 1, nextSequence);
            CheckReadings(items, n, nextSequence)
            == if earlier.Some? && ReadingReadable(rs[n - 1], LastSequence(earlier.value), nextSequence)
               then Some(earlier.value + [rs[n - 1]]) else None
  {
    var items, earlier := ReadingDocuments(rs), CheckReadings(ReadingDocuments(rs), n - 1, nextSequence);
    assert items[n - 1] == ReadingDocument(rs[n - 1]);
    if earlier.Some? {
      ReadingRoundTrip(rs[n - 1], LastSequence(earlier.value), nextSequence);
    }
  }

  lemma {:induction false} QueueRoundTrip(rs: seq<Reading>, n: nat, nextSequence: int)
    requires n <= |rs|
    ensures CheckReadings(ReadingDocuments(rs), n, nextSequence)
            == if QueueReadable(rs, n, nextSequence) then Some(rs[..n]) else None
  {
    if n == 0 {
    } else {
      QueueRoundTrip(rs, n - 1, nextSequence);
      QueueReadableStep(rs, n, nextSequence);
      CheckReadingsStep(rs, n, nextSequence);
      assert rs[..n] == rs[..n - 1] + [rs[n - 1]];
    }
  }

  lemma QueueReadableAppend(earlier: seq<Reading>, r: Reading, nextSequence: int)
    requires QueueReadable(earlier, |earlier|, nextSequence) && ReadingReadable(r, LastSequence(earlier), nextSequence)
    ensures QueueReadable(earlier + [r], |earlier| + 1, nextSequence)
  {
    var rs := earlier + [r];
    forall i | 0 <= i <= |earlier| ensures ReadingReadable(rs[i], LastSequence(rs[..i]), nextSequence) {
      assert rs[..i] == earlier[..i];
      if i == |earlier| {
        assert earlier[..i] == earlier;
      } else {
        assert ReadingReadable(earlier[i], LastSequence(earlier[..i]), nextSequence);
      }
    }
  }

  lemma {:induction false} ReadingsReadable(items: seq<Json>, n: nat, nextSequence: int, rs: seq<Reading>)
    requires n <= |items| && CheckReadings(items, n, nextSequence) == Some(rs)
    ensures |rs| == n && QueueReadable(rs, n, nextSequence)
  {
    if n == 0 {
    } else {
      var earlier := CheckReadings(items, n - 1, nextSequence).value;
      ReadingsReadable(items, n - 1, nextSequence, earlier);
      QueueReadableAppend(earlier, CheckReading(items[n - 1], LastSequence(earlier), nextSequence).value, nextSequence);
    }
  }

  /** Whatever document is read, only a readable state ever comes out: increasing sequences, all below the next. */
  lemma LoadedIsReadable(value: Json, s: State)
    requires CheckDocument(value) == Ok(s)
    ensures Readable(s)
  {
    var pending := value.Get("pending");
    ReadingsReadable(pending.items, |pending.items|, s.nextSequence, s.pending);
  }

  ghost predicate Holds(value: Json, name: string, field: Json) {
    value.Obj? && name in value.fields && value.fields[name] == field
  }

  ghost predicate Documents(value: Json, s: State) {
    && Holds(value, "next_sequence", Int(s.nextSequence))
    && Holds(value, "pending", Arr(ReadingDocuments(s.pending)))
    && Holds(value, "dropped_readings", Int(s.dropped))
    && Holds(value, "upload_attempts", Int(s.attempts))
    && Holds(value, "upload_failures", Int(s.failures))
    && Holds(value, "last_http_status", OptionalInt(s.lastStatus))
    && Holds(value, "last_acknowledged_sequence", OptionalInt(s.lastAcknowledged))
  }

  lemma StateDocuments(s: State)
    ensures Documents(StateDocument(s), s)
  {
    var names := ["next_sequence", "pending", "dropped_readings", "upload_attempts", "upload_failures",
                  "last_http_status", "last_acknowledged_sequence"];
    assert names[3][7] != names[4][7];
  }

  lemma DocumentReadBack(value: Json, s: State)
    requires Documents(value, s)
    ensures CheckDocument(value) == (
              if s.nextSequence < 1 then Err(InvalidNextSequence)
              else if !QueueReadable(s.pending, |s.pending|, s.nextSequence) then Err(InvalidReading)
              else CheckCounters(value, s.nextSequence, s.pending))
    ensures Readable(s) ==> CheckCounters(value, s.nextSequence, s.pending) == Ok(s)
    ensures CheckCounters(value, s.nextSequence, s.pending).Ok? ==>
              && s.dropped >= 0 && s.attempts >= 0 && s.failures >= 0 && StatusReadable(s.lastStatus)
              && (s.lastAcknowledged.None? || 1 <= s.lastAcknowledged.value < s.nextSequence)
  {
    QueueRoundTrip(s.pending, |s.pending|, s.nextSequence);
    assert s.pending[..|s.pending|] == s.pending;
  }

  /** Saving and reading back is the identity on the readable states, and is refused on every other state. */
  lemma SaveReadRoundTrip(s: State)
    ensures Readable(s) ==> CheckDocument(StateDocument(s)) == Ok(s)
    ensures !Readable(s) ==> CheckDocument(StateDocument(s)).Err?
  {
    var value := StateDocument(s);
    StateDocuments(s);
    DocumentReadBack(value, s);
  }

  // ---- which documents are read, and as what ----

  ghost predicate ReadingMeans(item: Json, r: Reading) {
    && item.Obj?
    && "sequence" in item.fields && item.fields["sequence"] == Int(r.sequence)
    && "observed_at" in item.fields && item.fields["observed_at"] == Str(r.observedAt)
    && "pm25_ug_m3" in item.fields && item.fields["pm25_ug_m3"].IsNumber()
    && item.fields["pm25_ug_m3"].AsNumber() == Finite(r.pm25) && 0.0 <= r.pm25 <= 5000.0
  }

  /** The first `n` items are these readings, numbered in ascending order from 1 and below the next sequence. */
  ghost predicate QueueMeans(items: seq<Json>, n: nat, rs: seq<Reading>, nextSequence: int)
    requires n <= |items|
  {
    && |rs| == n
    && (forall i :: 0 <= i < n ==> ReadingMeans(items[i], rs[i]) && 0 < rs[i].sequence < nextSequence)
    && forall i, j :: 0 <= i < j < n ==> rs[i].sequence < rs[j].sequence
  }

  /** A counter that is zero when the document has no such field. */
  ghost predicate CounterMeans(value: Json, name: string, n: int)
    requires value.Obj?
  {
    n >= 0 && if name in value.fields then value.fields[name] == Int(n) else n == 0
  }

  /** An optional number in a range, absent when the field is missing or null. */
  ghost predicate OptionMeans(value: Json, name: string, v: Option<int>, low: int, high: int)
    requires value.Obj?
  {
    if name in value.fields && value.fields[name] != Null
    then v.Some? && value.fields[name] == Int(v.value) && low <= v.value <= high
    else v.None?
  }

  ghost predicate DocumentMeans(value: Json, s: State) {
    && value.Obj?
    && "next_sequence" in value.fields && value.fields["next_sequence"] == Int(s.nextSequence) && s.nextSequence >= 1
    && "pending" in value.fields && value.fields["pending"].Arr?
    && QueueMeans(value.fields["pending"].items, |value.fields["pending"].items|, s.pending, s.nextSequence)
    && CounterMeans(value, "dropped_readings", s.dropped)
    && CounterMeans(value, "upload_attempts", s.attempts)
    && CounterMeans(value, "upload_failures", s.failures)
    && OptionMeans(value, "last_http_status", s.lastStatus, 100, 599)
    && OptionMeans(value, "last_acknowledged_sequence", s.lastAcknowledged, 1, s.nextSequence - 1)
  }

  lemma ReadingReadExactly(item: Json, last: int, nextSequence: int, r: Reading)
    ensures CheckReading(item, last, nextSequence) == Some(r) <==>
              ReadingMeans(item, r) && last < r.sequence < nextSequence
  {
  }

  lemma QueueMeansStep(items: seq<Json>, n: nat, rs: seq<Reading>, nextSequence: int)
    requires 0 < n <= |items| && |rs| == n
    ensures QueueMeans(items, n, rs, nextSequence) <==>
              && QueueMeans(items, n - 1, rs[..n - 1], nextSequence)
              && ReadingMeans(items[n - 1], rs[n - 1])
              && LastSequence(rs[..n - 1]) < rs[n - 1].sequence < nextSequence
  {
    var earlier, last := rs[..n - 1], rs[n - 1];
    assert forall i :: 0 <= i < n - 1 ==> earlier[i] == rs[i];
    if QueueMeans(items, n - 1, earlier, nextSequence) && LastSequence(earlier) < last.sequence {
      forall i | 0 <= i < n - 1 ensures rs[i].sequence < last.sequence {
        assert i < n - 2 ==> earlier[i].sequence < earlier[n - 2].sequence;
      }
    }
  }

  lemma {:induction false} QueueReadExactly(items: seq<Json>, n: nat, rs: seq<Reading>, nextSequence: int)
    requires n <= |items|
    ensures CheckReadings(items, n, nextSequence) == Some(rs) <==> QueueMeans(items, n, rs, nextSequence)
  {
    if n == 0 {
    } else if |rs| != n {
      if CheckReadings(items, n, nextSequence) == Some(rs) {
        ReadingsReadable(items, n, nextSequence, rs);
      }
    } else {
      var earlier, last := rs[..n - 1], rs[n - 1];
      assert rs == earlier + [last];
      QueueReadExactly(items, n - 1, earlier, nextSequence);
      QueueMeansStep(items, n, rs, nextSequence);
      ReadingReadExactly(items[n - 1], LastSequence(earlier), nextSequence, last);
    }
  }

  lemma CountersReadExactly(value: Json, pending: seq<Reading>, s: State)
    requires value.Obj? && s.pending == pending
    ensures CheckCounters(value, s.nextSequence, pending) == Ok(s) <==>
              && CounterMeans(value, "dropped_readings", s.dropped)
              && CounterMeans(value, "upload_attempts", s.attempts)
              && CounterMeans(value, "upload_failures", s.failures)
              && OptionMeans(value, "last_http_status", s.lastStatus, 100, 599)
              && OptionMeans(value, "last_acknowledged_sequence", s.lastAcknowledged, 1, s.nextSequence - 1)
  {
  }

  /** Exactly which documents are read as a state, with the defaults of fields an older document lacks. */
  lemma ReadExactly(value: Json, s: State)
    ensures CheckDocument(value) == Ok(s) <==> DocumentMeans(value, s)
  {
    if value.Obj? && value.Get("pending").Arr? {
      var items := value.Get("pending").items;
      QueueReadExactly(items, |items|, s.pending, s.nextSequence);
      CountersReadExactly(value, s.pending, s);
    }
  }
}
