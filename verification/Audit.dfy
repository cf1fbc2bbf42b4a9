/** The administrator's audit of which sequences of a device are stored. */
module Audit {
  import opened Common
  import opened Ingestion

  datatype Range = Range(first: int, last: int)

  datatype Report = Report(received: nat, missing: int, missingRanges: seq<Range>, complete: bool)

  datatype AuditError = InvalidRange | UnknownDevice

  predicate InRange(r: Range, v: int) {
    r.first <= v <= r.last
  }

  /** What the database's ordered query over unique rows returns. */
  ghost predicate SortedWithin(sequences: seq<int>, start: int, end: int) {
    && (forall i :: 0 <= i < |sequences| ==> start <= sequences[i] <= end)
    && forall i, j :: 0 <= i < j < |sequences| ==> sequences[i] < sequences[j]
  }

  predicate Covered(ranges: seq<Range>, v: int) {
    exists i :: 0 <= i < |ranges| && InRange(ranges[i], v)
  }

  /** Non-empty ranges in ascending order, no two of them touching. */
  ghost predicate Separated(ranges: seq<Range>) {
    && (forall i :: 0 <= i < |ranges| ==> ranges[i].first <= ranges[i].last)
    && forall i, j :: 0 <= i < j < |ranges| ==> ranges[i].last + 1 < ranges[j].first
  }

  ghost predicate Absent(sequences: seq<int>, n: nat, v: int)
    requires n <= |sequences|
  {
    forall i :: 0 <= i < n ==> sequences[i] != v
  }

  /** `ranges` are the maximal gaps of the first `n` sequences in [start, end): separated, covering what is absent. */
  ghost predicate Gaps(sequences: seq<int>, n: nat, ranges: seq<Range>, start: int, end: int)
    requires n <= |sequences|
  {
    && Separated(ranges)
    && forall v :: Covered(ranges, v) <==> start <= v < end && Absent(sequences, n, v)
  }

  function TotalLength(ranges: seq<Range>): int {
    if |ranges| == 0 then 0
    else TotalLength(ranges[..|ranges| - 1]) + ranges[|ranges| - 1].last - ranges[|ranges| - 1].first + 1
  }

  /** After `n` sequences: `expected` follows the last of them, and the gaps below it have been found. */
  ghost predicate Scanned(sequences: seq<int>, n: nat, ranges: seq<Range>, start: int, end: int, expected: int)
    requires n <= |sequences|
  {
    && start <= expected <= end + 1
    && expected == (if n == 0 then start else sequences[n - 1] + 1)
    && Gaps(sequences, n, ranges, start, expected)
    && (forall i :: 0 <= i < |ranges| ==> ranges[i].last + 1 < expected)
    && TotalLength(ranges) + n == expected - start
  }

  lemma TotalAppend(ranges: seq<Range>, r: Range)
    ensures TotalLength(ranges + [r]) == TotalLength(ranges) + r.last - r.first + 1
  {
    assert (ranges + [r])[..|ranges|] == ranges;
  }

  lemma SeparatedAppend(ranges: seq<Range>, r: Range)
    requires Separated(ranges) && r.first <= r.last && forall i :: 0 <= i < |ranges| ==> ranges[i].last + 1 < r.first
    ensures Separated(ranges + [r])
  {
  }

  lemma AbsentAbove(sequences: seq<int>, n: nat, start: int, end: int, expected: int, v: int)
    requires n <= |sequences| && SortedWithin(sequences, start, end) && expected <= v
    requires n > 0 ==> expected == sequences[n - 1] + 1
    ensures Absent(sequences, n, v)
  {
  }

  lemma CoveredAppend(ranges: seq<Range>, r: Range, v: int)
    ensures Covered(ranges + [r], v) <==> Covered(ranges, v) || InRange(r, v)
  {
    if Covered(ranges, v) {
      var i :| 0 <= i < |ranges| && InRange(ranges[i], v);
      assert (ranges + [r])[i] == ranges[i];
    }
    if InRange(r, v) {
      assert (ranges + [r])[|ranges|] == r;
    }
  }

  /** Ground just above the scanned part, up to `next`, becomes one more gap. */
  lemma GapAdded(sequences: seq<int>, n: nat, ranges: seq<Range>, start: int, expected: int, next: int, v: int)
    requires n <= |sequences| && Gaps(sequences, n, ranges, start, expected) && start <= expected < next
    requires expected <= v ==> Absent(sequences, n, v)
    ensures Covered(ranges + [Range(expected, next - 1)], v) <==> start <= v < next && Absent(sequences, n, v)
  {
    CoveredAppend(ranges, Range(expected, next - 1), v);
  }

  lemma GapsAdded(sequences: seq<int>, n: nat, ranges: seq<Range>, start: int, end: int, expected: int, next: int)
    requires n <= |sequences| && SortedWithin(sequences, start, end)
    requires Scanned(sequences, n, ranges, start, end, expected) && expected < next
    ensures Gaps(sequences, n, ranges + [Range(expected, next - 1)], start, next)
    ensures TotalLength(ranges + [Range(expected, next - 1)]) + n == next - start
  {
    var gap := Range(expected, next - 1);
    SeparatedAppend(ranges, gap);
    TotalAppend(ranges, gap);
    forall v ensures Covered(ranges + [gap], v) <==> start <= v < next && Absent(sequences, n, v) {
      if expected <= v {
        AbsentAbove(sequences, n, start, end, expected, v);
      }
      GapAdded(sequences, n, ranges, start, expected, next, v);
    }
  }

  lemma GapsPast(sequences: seq<int>, n: nat, ranges: seq<Range>, start: int, next: int)
    requires n < |sequences| && sequences[n] == next && Gaps(sequences, n, ranges, start, next)
    ensures Gaps(sequences, n + 1, ranges, start, next + 1)
  {
    forall v ensures Covered(ranges, v) <==> start <= v < next + 1 && Absent(sequences, n + 1, v) {
      assert Absent(sequences, n + 1, v) <==> Absent(sequences, n, v) && v != next;
    }
  }

  lemma ScannedNext(sequences: seq<int>, n: nat, ranges: seq<Range>, start: int, end: int)
    requires n < |sequences| && start <= sequences[n] <= end
    requires Gaps(sequences, n, ranges, start, sequences[n])
    requires TotalLength(ranges) + n == sequences[n] - start
    requires forall i :: 0 <= i < |ranges| ==> ranges[i].last < sequences[n]
    ensures Scanned(sequences, n + 1, ranges, start, end, sequences[n] + 1)
  {
    GapsPast(sequences, n, ranges, start, sequences[n]);
  }

  /** Reading one more sequence: the ground up to it is a gap, if there is any, and it is not missing itself. */
  lemma GapStep(sequences: seq<int>, n: nat, ranges: seq<Range>, start: int, end: int, expected: int)
    requires n < |sequences| && SortedWithin(sequences, start, end)
    requires Scanned(sequences, n, ranges, start, end, expected)
    ensures sequences[n] > expected ==>
              Scanned(sequences, n + 1, ranges + [Range(expected, sequences[n] - 1)], start, end, sequences[n] + 1)
    ensures sequences[n] <= expected ==> Scanned(sequences, n + 1, ranges, start, end, sequences[n] + 1)
  {
    var next := sequences[n];
    assert expected <= next;
    if next > expected {
      var ranges' := ranges + [Range(expected, next - 1)];
      GapsAdded(sequences, n, ranges, start, end, expected, next);
      assert forall i :: 0 <= i < |ranges'| ==> ranges'[i].last < next;
      ScannedNext(sequences, n, ranges', start, end);
    } else {
      ScannedNext(sequences, n, ranges, start, end);
    }
  }

  lemma GapEnd(sequences: seq<int>, ranges: seq<Range>, start: int, end: int, expected: int)
    requires SortedWithin(sequences, start, end) && Scanned(sequences, |sequences|, ranges, start, end, expected)
    ensures var ranges' := if expected <= end then ranges + [Range(expected, end)] else ranges;
            && Gaps(sequences, |sequences|, ranges', start, end + 1)
            && TotalLength(ranges') + |sequences| == end - start + 1
  {
    if expected <= end {
      GapsAdded(sequences, |sequences|, ranges, start, end, expected, end + 1);
    }
  }

  method MissingRanges(sequences: seq<int>, start: int, end: int) returns (ranges: seq<Range>)
    ensures SortedWithin(sequences, start, end) && start <= end + 1 ==>
              && Gaps(sequences, |sequences|, ranges, start, end + 1)
              && TotalLength(ranges) + |sequences| == end - start + 1
  {
    ghost var ok := SortedWithin(sequences, start, end) && start <= end + 1;
    ranges := [];
    var expected := start;
    for i := 0 to |sequences|
      invariant ok ==> Scanned(sequences, i, ranges, start, end, expected)
    {
      var sequence := sequences[i];
      if ok {
        GapStep(sequences, i, ranges, start, end, expected);
      }
      if sequence > expected {
        ranges := ranges + [Range(expected, sequence - 1)];
      }
      expected := sequence + 1;
    }
    if ok {
      GapEnd(sequences, ranges, start, end, expected);
    }
    if expected <= end {
      ranges := ranges + [Range(expected, end)];
    }
  }

  /** The maximal gaps are determined: each starts at the range's start or after a stored value, and so ends. */
  lemma GapsMaximal(sequences: seq<int>, ranges: seq<Range>, start: int, end: int, i: nat)
    requires Gaps(sequences, |sequences|, ranges, start, end) && i < |ranges|
    ensures ranges[i].first == start || ranges[i].first - 1 in sequences
    ensures ranges[i].last + 1 == end || ranges[i].last + 1 in sequences
  {
    var r := ranges[i];
    assert InRange(r, r.first) && InRange(r, r.last);
    assert Covered(ranges, r.first) && Covered(ranges, r.last);
    forall j | 0 <= j < |ranges| ensures !InRange(ranges[j], r.first - 1) && !InRange(ranges[j], r.last + 1) {
    }
    assert !Covered(ranges, r.first - 1) && !Covered(ranges, r.last + 1);
  }

  // ---- the report ----

  function InsertSorted(sequences: seq<int>, v: int): seq<int> {
    if |sequences| == 0 || sequences[|sequences| - 1] <= v then sequences + [v]
    else InsertSorted(sequences[..|sequences| - 1], v) + [sequences[|sequences| - 1]]
  }

  /** The ordered query over the measurements table. */
  function StoredBetween(ms: seq<MeasurementRow>, device: string, start: int, end: int): seq<int> {
    if |ms| == 0 then []
    else
      var earlier := StoredBetween(ms[..|ms| - 1], device, start, end);
      var m := ms[|ms| - 1];
      if m.device == device && start <= m.reading.sequence <= end then InsertSorted(earlier, m.reading.sequence)
      else earlier
  }

  lemma SortedAppend(sequences: seq<int>, last: int, start: int, end: int)
    requires SortedWithin(sequences, start, end) && start <= last <= end
    requires forall x :: x in sequences ==> x < last
    ensures SortedWithin(sequences + [last], start, end)
    ensures forall x :: x in sequences + [last] <==> x in sequences || x == last
  {
    forall i | 0 <= i < |sequences| ensures sequences[i] < last {
      assert sequences[i] in sequences;
    }
  }

  /** Everything but the last of an ordered list is ordered, and lies below it. */
  lemma SortedPrefix(sequences: seq<int>, start: int, end: int)
    requires SortedWithin(sequences, start, end) && |sequences| > 0
    ensures var earlier, last := sequences[..|sequences| - 1], sequences[|sequences| - 1];
            && SortedWithin(earlier, start, end) && sequences == earlier + [last]
            && (forall x :: x in earlier ==> x < last)
            && forall x :: x in sequences <==> x in earlier || x == last
  {
    var earlier, last := sequences[..|sequences| - 1], sequences[|sequences| - 1];
    assert sequences == earlier + [last];
  }

  lemma {:induction false} InsertKeepsSorted(sequences: seq<int>, v: int, start: int, end: int)
    requires SortedWithin(sequences, start, end) && start <= v <= end && v !in sequences
    ensures SortedWithin(InsertSorted(sequences, v), start, end)
    ensures forall x :: x in InsertSorted(sequences, v) <==> x in sequences || x == v
  {
    if |sequences| == 0 {
      SortedAppend(sequences, v, start, end);
    } else {
      SortedPrefix(sequences, start, end);
      var earlier, last := sequences[..|sequences| - 1], sequences[|sequences| - 1];
      if last > v {
        InsertKeepsSorted(earlier, v, start, end);
        SortedAppend(InsertSorted(earlier, v), last, start, end);
      } else {
        SortedAppend(sequences, v, start, end);
      }
    }
  }

  lemma {:induction false} StoredBetweenIsQuery(ms: seq<MeasurementRow>, device: string, start: int, end: int)
    requires UniqueSlots(ms)
    ensures SortedWithin(StoredBetween(ms, device, start, end), start, end)
    ensures forall v: nat :: v in StoredBetween(ms, device, start, end) <==> start <= v <= end && Has(ms, device, v)
    ensures forall v :: v in StoredBetween(ms, device, start, end) ==> v >= 0
  {
    if |ms| == 0 {
    } else {
      var earlier, m := ms[..|ms| - 1], ms[|ms| - 1];
      StoredBetweenIsQuery(earlier, device, start, end);
      assert ms == earlier + [m];
      forall v: nat ensures Has(ms, device, v) <==> Has(earlier, device, v) || SameSlot(m, device, v) {
        HasAppend(earlier, [m], device, v);
        assert SameSlot([m][0], device, v) <==> SameSlot(m, device, v);
      }
      if m.device == device && start <= m.reading.sequence <= end {
        forall i | 0 <= i < |earlier| ensures !SameSlot(earlier[i], device, m.reading.sequence) {
          assert ms[i] == earlier[i];
        }
        InsertKeepsSorted(StoredBetween(earlier, device, start, end), m.reading.sequence, start, end);
      }
    }
  }

  lemma {:induction false} LengthPositive(ranges: seq<Range>)
    requires Separated(ranges)
    ensures TotalLength(ranges) >= |ranges|
  {
    if |ranges| == 0 {
    } else {
      LengthPositive(ranges[..|ranges| - 1]);
    }
  }

  /**
   The audit of a committed database: the report is complete exactly when every sequence of the range is stored,
   `missing` counts the absent ones, and the ranges cover exactly those.
   */
  method VerifySequenceRange(db: Db, known: bool, device: string, start: int, end: int)
    returns (result: Result<Report, AuditError>)
    requires UniqueSlots(db.measurements)
    ensures start < 1 || end < start || end - start + 1 > 1_000_000 <==> result == Err(InvalidRange)
    ensures result == Err(UnknownDevice) ==> !known
    ensures result.Ok? ==>
              var report := result.value;
              && known
              && (report.complete <==> forall v: nat :: start <= v <= end ==> Has(db.measurements, device, v))
              && (forall v: nat :: Covered(report.missingRanges, v) <==>
                                     start <= v <= end && !Has(db.measurements, device, v))
              && Separated(report.missingRanges)
              && report.missing == TotalLength(report.missingRanges) == end - start + 1 - report.received
              && (report.complete <==> report.missing == 0)
  {
    if start < 1 || end < start || end - start + 1 > 1_000_000 {
      return Err(InvalidRange);
    }
    if !known {
      return Err(UnknownDevice);
    }
    var sequences := StoredBetween(db.measurements, device, start, end);
    StoredBetweenIsQuery(db.measurements, device, start, end);
    var missing := MissingRanges(sequences, start, end);
    assert forall v :: v in sequences <==> !Absent(sequences, |sequences|, v);
    if missing != [] {
      LengthPositive(missing);
      assert InRange(missing[0], missing[0].first) && Covered(missing, missing[0].first);
      assert Absent(sequences, |sequences|, missing[0].first);
    } else {
      forall v: nat | start <= v <= end ensures Has(db.measurements, device, v) {
        assert !Covered(missing, v);
      }
    }
    result := Ok(Report(|sequences|, end - start + 1 - |sequences|, missing, missing == []));
  }
}
