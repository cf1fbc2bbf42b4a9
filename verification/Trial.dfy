/** The automated reliability trial: its batches, its fault plan and its accounting. */
module Trial {
  import opened Common
  import opened IdempotencyKey

  datatype Batch = Batch(first: nat, last: nat, key: string, readings: seq<(nat, real)>) {
    function Size(): int {
      last - first + 1
    }
  }

  datatype Operation = ApiOutage | WorkerOutage | AcknowledgementReplay

  // ---- batches ----

  /** The synthetic concentration of a sequence; a multiple of 0.05, so rounding to cents changes nothing. */
  function Concentration(sequence: nat): real {
    8.0 + (sequence % 800) as real / 20.0
  }

  function Payload(first: nat, last: nat): seq<(nat, real)>
    requires first <= last
  {
    seq(last - first + 1, i requires 0 <= i => (first + i, Concentration(first + i)))
  }

  function MakeBatch(prefix: string, first: nat, last: nat): Batch
    requires first <= last
  {
    Batch(first, last, BatchKey(prefix, first, last), Payload(first, last))
  }

  /** The last sequence of the first `n` batches. */
  function Upto(batches: seq<Batch>, n: nat): nat
    requires n <= |batches|
  {
    if n == 0 then 0 else batches[n - 1].last
  }

  /** The `i`-th batch starts where the one before it ended and is full unless the readings run out. */
  ghost predicate BatchAt(batches: seq<Batch>, i: nat, readings: nat, batchSize: nat, prefix: string)
    requires i < |batches|
  {
    var first := Upto(batches, i) + 1;
    && first <= readings && batchSize >= 1
    && batches[i] == MakeBatch(prefix, first, Min(readings, first + batchSize - 1))
  }

  ghost predicate Consecutive(batches: seq<Batch>, readings: nat, batchSize: nat, prefix: string) {
    forall i :: 0 <= i < |batches| ==> BatchAt(batches, i, readings, batchSize, prefix)
  }

  /** Consecutive batches from sequence 1 to `readings`, all of full size but perhaps the last. */
  ghost predicate Partition(batches: seq<Batch>, readings: nat, batchSize: nat, prefix: string) {
    Consecutive(batches, readings, batchSize, prefix) && Upto(batches, |batches|) == readings
  }

  lemma ConsecutiveAppend(batches: seq<Batch>, readings: nat, batchSize: nat, prefix: string)
    requires Consecutive(batches, readings, batchSize, prefix) && Upto(batches, |batches|) < readings && batchSize >= 1
    ensures var first := Upto(batches, |batches|) + 1;
            var last := Min(readings, first + batchSize - 1);
            Consecutive(batches + [MakeBatch(prefix, first, last)], readings, batchSize, prefix)
  {
    var first := Upto(batches, |batches|) + 1;
    var batches' := batches + [MakeBatch(prefix, first, Min(readings, first + batchSize - 1))];
    forall i | 0 <= i < |batches'| ensures BatchAt(batches', i, readings, batchSize, prefix) {
      assert Upto(batches', i) == Upto(batches, i);
      if i < |batches| {
        assert BatchAt(batches, i, readings, batchSize, prefix);
      }
    }
  }

  method BuildBatches(readings: int, batchSize: int, runId: string) returns (result: Option<seq<Batch>>)
    requires |runId| >= 12
    ensures result.None? <==> readings < 1 || batchSize < 1 || batchSize > 500
    ensures result.Some? ==> Partition(result.value, readings, batchSize, "software-trial-" + runId[..12])
  {
    if readings < 1 || batchSize < 1 || batchSize > 500 {
      return None;
    }
    var prefix := "software-trial-" + runId[..12];
    var batches: seq<Batch> := [];
    var first := 1;
    while first < readings + 1
      invariant 1 <= first
      invariant Upto(batches, |batches|) == Min(readings, first - 1)
      invariant Consecutive(batches, readings, batchSize, prefix)
      decreases readings + 1 - first
    {
      var last := Min(readings, first + batchSize - 1);
      ConsecutiveAppend(batches, readings, batchSize, prefix);
      batches := batches + [MakeBatch(prefix, first, last)];
      first := first + batchSize;
    }
    result := Some(batches);
  }

  lemma {:induction false} UptoGrows(batches: seq<Batch>, readings: nat, batchSize: nat, prefix: string, i: nat, j: nat)
    requires Consecutive(batches, readings, batchSize, prefix) && i < j <= |batches|
    ensures Upto(batches, i) < batches[i].first <= batches[i].last <= Upto(batches, j) <= readings
  {
    assert BatchAt(batches, i, readings, batchSize, prefix) && BatchAt(batches, j - 1, readings, batchSize, prefix);
    if i == j - 1 {
    } else {
      UptoGrows(batches, readings, batchSize, prefix, i, j - 1);
    }
  }

  lemma ConcentrationRange(sequence: nat)
    ensures 8.0 <= Concentration(sequence) < 48.0
  {
    var n := sequence % 800;
    assert 0.0 <= n as real < 800.0;
  }

  /** A batch carries its sequences in order, each with a concentration the service accepts. */
  lemma PayloadAccepted(batches: seq<Batch>, readings: nat, batchSize: nat, prefix: string, i: nat)
    requires Consecutive(batches, readings, batchSize, prefix) && i < |batches|
    ensures |batches[i].readings| == batches[i].Size()
    ensures forall k :: 0 <= k < |batches[i].readings| ==>
              && batches[i].readings[k].0 == batches[i].first + k
              && 8.0 <= batches[i].readings[k].1 < 48.0
  {
    assert BatchAt(batches, i, readings, batchSize, prefix);
    UptoGrows(batches, readings, batchSize, prefix, i, i + 1);
    var b := batches[i];
    forall k | 0 <= k < |b.readings| ensures b.readings[k].0 == b.first + k && 8.0 <= b.readings[k].1 < 48.0 {
      assert b.readings[k] == (b.first + k, Concentration(b.first + k));
      ConcentrationRange(b.first + k);
    }
  }

  predicate Contains(b: Batch, v: nat) {
    b.first <= v <= b.last
  }

  /** No batch is empty or larger than the batch size; no two share a sequence or a key. */
  lemma BatchesDisjoint(batches: seq<Batch>, readings: nat, batchSize: nat, prefix: string, i: nat, j: nat)
    requires Consecutive(batches, readings, batchSize, prefix) && i < j < |batches|
    ensures 1 <= batches[i].Size() <= batchSize && 1 <= batches[j].Size() <= batchSize
    ensures batches[i].last < batches[j].first && batches[i].key != batches[j].key
  {
    UptoGrows(batches, readings, batchSize, prefix, i, j);
    assert BatchAt(batches, i, readings, batchSize, prefix) && BatchAt(batches, j, readings, batchSize, prefix);
    if batches[i].key == batches[j].key {
      KeyInjective(prefix, batches[i].first, batches[i].last, batches[j].first, batches[j].last);
    }
  }

  /** Every sequence of the trial lies in one of the batches. */
  lemma {:induction false} BatchesCover(
    batches: seq<Batch>, readings: nat, batchSize: nat, prefix: string, n: nat, v: nat) returns (i: nat)
    requires Consecutive(batches, readings, batchSize, prefix) && n <= |batches| && 1 <= v <= Upto(batches, n)
    ensures i < n && Contains(batches[i], v)
  {
    assert BatchAt(batches, n - 1, readings, batchSize, prefix);
    if batches[n - 1].first <= v {
      i := n - 1;
    } else {
      i := BatchesCover(batches, readings, batchSize, prefix, n - 1, v);
    }
  }

  // ---- the fault plan ----

  function Decrement(n: nat): nat {
    if n == 0 then 0 else n - 1
  }

  function Once(n: nat, op: Operation): seq<Operation> {
    if n == 0 then [] else [op]
  }

  function Round(api: nat, worker: nat, replays: nat): seq<Operation> {
    Once(api, ApiOutage) + Once(worker, WorkerOutage) + Once(replays, AcknowledgementReplay)
  }

  /** Rounds of one of each kind that is still owed. */
  function Rounds(api: nat, worker: nat, replays: nat): seq<Operation>
    decreases api + worker + replays
  {
    if api == 0 && worker == 0 && replays == 0 then []
    else Round(api, worker, replays) + Rounds(Decrement(api), Decrement(worker), Decrement(replays))
  }

  function Count(ops: seq<Operation>, op: Operation): nat {
    if |ops| == 0 then 0 else (if ops[0] == op then 1 else 0) + Count(ops[1..], op)
  }

  lemma RoundsUnfold(before: seq<Operation>, api: nat, worker: nat, replays: nat)
    requires api != 0 || worker != 0 || replays != 0
    ensures before + Rounds(api, worker, replays)
            == before + Round(api, worker, replays) + Rounds(Decrement(api), Decrement(worker), Decrement(replays))
  {
  }

  method RoundRobinOperations(apiFaults: nat, workerFaults: nat, acknowledgementReplays: nat)
    returns (operations: seq<Operation>)
    ensures operations == Rounds(apiFaults, workerFaults, acknowledgementReplays)
  {
    var remaining: map<Operation, nat> :=
      map[ApiOutage := apiFaults, WorkerOutage := workerFaults, AcknowledgementReplay := acknowledgementReplays];
    operations := [];
    while remaining[ApiOutage] != 0 || remaining[WorkerOutage] != 0 || remaining[AcknowledgementReplay] != 0
      invariant remaining.Keys == {ApiOutage, WorkerOutage, AcknowledgementReplay}
      invariant operations + Rounds(remaining[ApiOutage], remaining[WorkerOutage], remaining[AcknowledgementReplay])
                == Rounds(apiFaults, workerFaults, acknowledgementReplays)
      decreases remaining[ApiOutage] + remaining[WorkerOutage] + remaining[AcknowledgementReplay]
    {
      ghost var before := operations;
      ghost var api, worker, replays := remaining[ApiOutage], remaining[WorkerOutage], remaining[AcknowledgementReplay];
      var names := [ApiOutage, WorkerOutage, AcknowledgementReplay];
      for n := 0 to 3
        invariant remaining.Keys == {ApiOutage, WorkerOutage, AcknowledgementReplay}
        invariant remaining[ApiOutage] == if n > 0 then Decrement(api) else api
        invariant remaining[WorkerOutage] == if n > 1 then Decrement(worker) else worker
        invariant remaining[AcknowledgementReplay] == if n > 2 then Decrement(replays) else replays
        invariant n == 0 ==> operations == before
        invariant n == 1 ==> operations == before + Once(api, ApiOutage)
        invariant n == 2 ==> operations == before + (Once(api, ApiOutage) + Once(worker, WorkerOutage))
        invariant n == 3 ==> operations == before + Round(api, worker, replays)
      {
        if remaining[names[n]] != 0 {
          operations := operations + [names[n]];
          remaining := remaining[names[n] := remaining[names[n]] - 1];
        }
      }
      RoundsUnfold(before, api, worker, replays);
    }
  }

  lemma {:induction false} CountAppend(a: seq<Operation>, b: seq<Operation>, op: Operation)
    ensures Count(a + b, op) == Count(a, op) + Count(b, op)
  {
    if |a| == 0 {
      assert a + b == b;
    } else {
      assert (a + b)[1..] == a[1..] + b;
      CountAppend(a[1..], b, op);
    }
  }

  lemma CountRound(api: nat, worker: nat, replays: nat, op: Operation)
    ensures Count(Round(api, worker, replays), op)
            == match op
               case ApiOutage => api - Decrement(api)
               case WorkerOutage => worker - Decrement(worker)
               case AcknowledgementReplay => replays - Decrement(replays)
  {
    CountAppend(Once(api, ApiOutage) + Once(worker, WorkerOutage), Once(replays, AcknowledgementReplay), op);
    CountAppend(Once(api, ApiOutage), Once(worker, WorkerOutage), op);
  }

  /** The plan holds exactly the requested number of each kind of fault. */
  lemma {:induction false} PlanCounts(api: nat, worker: nat, replays: nat)
    ensures Count(Rounds(api, worker, replays), ApiOutage) == api
    ensures Count(Rounds(api, worker, replays), WorkerOutage) == worker
    ensures Count(Rounds(api, worker, replays), AcknowledgementReplay) == replays
    decreases api + worker + replays
  {
    if api == 0 && worker == 0 && replays == 0 {
    } else {
      var rest := Rounds(Decrement(api), Decrement(worker), Decrement(replays));
      PlanCounts(Decrement(api), Decrement(worker), Decrement(replays));
      forall op ensures Count(Rounds(api, worker, replays), op)
                        == Count(Round(api, worker, replays), op) + Count(rest, op) {
        CountAppend(Round(api, worker, replays), rest, op);
      }
      CountRound(api, worker, replays, ApiOutage);
      CountRound(api, worker, replays, WorkerOutage);
      CountRound(api, worker, replays, AcknowledgementReplay);
    }
  }

  // ---- the order of the plan ----

  function Rank(op: Operation): nat {
    match op
    case ApiOutage => 0
    case WorkerOutage => 1
    case AcknowledgementReplay => 2
  }

  /** How many operations of the same kind come before this one. */
  function Occurrence(ops: seq<Operation>, p: nat): nat
    requires p < |ops|
  {
    Count(ops[..p], ops[p])
  }

  lemma {:induction false} CountPositive(ops: seq<Operation>, p: nat)
    requires p < |ops|
    ensures Count(ops, ops[p]) >= 1
  {
    if p == 0 {
    } else {
      CountPositive(ops[1..], p - 1);
    }
  }

  lemma {:induction false} CountNone(ops: seq<Operation>, op: Operation)
    requires op !in ops
    ensures Count(ops, op) == 0
  {
    if |ops| == 0 {
    } else {
      CountNone(ops[1..], op);
    }
  }

  lemma RanksRise(api: nat, worker: nat, replays: nat)
    ensures var round := Round(api, worker, replays);
            forall p, q :: 0 <= p < q < |round| ==> Rank(round[p]) < Rank(round[q])
  {
  }

  /** Within a round every kind comes once, in the order of the kinds. */
  lemma FirstInRound(api: nat, worker: nat, replays: nat, rest: seq<Operation>, p: nat)
    requires p < |Round(api, worker, replays)|
    ensures Occurrence(Round(api, worker, replays) + rest, p) == 0
  {
    var round := Round(api, worker, replays);
    RanksRise(api, worker, replays);
    assert (round + rest)[..p] == round[..p];
    CountNone(round[..p], round[p]);
  }

  lemma OccurrenceLater(round: seq<Operation>, rest: seq<Operation>, p: nat)
    requires p < |rest|
    ensures Occurrence(round + rest, |round| + p) == Count(round, rest[p]) + Occurrence(rest, p)
  {
    var op := rest[p];
    assert (round + rest)[|round| + p] == op;
    assert (round + rest)[..|round| + p] == round + rest[..p];
    CountAppend(round, rest[..p], op);
  }

  /** What is still owed after a round was owed in it, so it comes there exactly once. */
  lemma OwedInRound(api: nat, worker: nat, replays: nat, p: nat)
    requires p < |Rounds(Decrement(api), Decrement(worker), Decrement(replays))|
    ensures Count(Round(api, worker, replays), Rounds(Decrement(api), Decrement(worker), Decrement(replays))[p]) == 1
  {
    var rest := Rounds(Decrement(api), Decrement(worker), Decrement(replays));
    CountPositive(rest, p);
    PlanCounts(Decrement(api), Decrement(worker), Decrement(replays));
    CountRound(api, worker, replays, rest[p]);
  }

  /** Behind a round, every operation has one more of its kind before it than in the rest alone. */
  lemma NextRound(api: nat, worker: nat, replays: nat, p: nat)
    requires p < |Rounds(Decrement(api), Decrement(worker), Decrement(replays))|
    ensures var round := Round(api, worker, replays);
            var rest := Rounds(Decrement(api), Decrement(worker), Decrement(replays));
            Occurrence(round + rest, |round| + p) == 1 + Occurrence(rest, p)
  {
    OccurrenceLater(Round(api, worker, replays), Rounds(Decrement(api), Decrement(worker), Decrement(replays)), p);
    OwedInRound(api, worker, replays, p);
  }

  ghost predicate InPlanOrder(ops: seq<Operation>, p: nat, q: nat)
    requires p < |ops| && q < |ops|
  {
    || Occurrence(ops, p) < Occurrence(ops, q)
    || (Occurrence(ops, p) == Occurrence(ops, q) && Rank(ops[p]) < Rank(ops[q]))
  }

  /**
   The plan goes round by round: an operation comes before every operation that more of its own kind precede, and
   among those that equally many precede the order is API outage, worker outage, replay.
   */
  lemma {:induction false} PlanOrdered(api: nat, worker: nat, replays: nat, p: nat, q: nat)
    requires p < q < |Rounds(api, worker, replays)|
    ensures InPlanOrder(Rounds(api, worker, replays), p, q)
    decreases api + worker + replays
  {
    var round := Round(api, worker, replays);
    var rest := Rounds(Decrement(api), Decrement(worker), Decrement(replays));
    assert Rounds(api, worker, replays) == round + rest;
    if q < |round| {
      FirstInRound(api, worker, replays, rest, p);
      FirstInRound(api, worker, replays, rest, q);
      RanksRise(api, worker, replays);
    } else if p < |round| {
      FirstInRound(api, worker, replays, rest, p);
      NextRound(api, worker, replays, q - |round|);
    } else {
      NextRound(api, worker, replays, p - |round|);
      NextRound(api, worker, replays, q - |round|);
      PlanOrdered(Decrement(api), Decrement(worker), Decrement(replays), p - |round|, q - |round|);
    }
  }

  /** The batches the remaining operations need. */
  function Reserved(ops: seq<Operation>, buffer: nat): nat {
    if |ops| == 0 then 0
    else (if ops[0].AcknowledgementReplay? then 1 else buffer) + Reserved(ops[1..], buffer)
  }

  lemma OneMore(n: nat, buffer: nat)
    ensures (n + 1) * buffer == n * buffer + buffer
  {
  }

  lemma {:induction false} ReservedCounts(ops: seq<Operation>, buffer: nat)
    ensures Reserved(ops, buffer)
            == (Count(ops, ApiOutage) + Count(ops, WorkerOutage)) * buffer + Count(ops, AcknowledgementReplay)
    ensures |ops| == Count(ops, ApiOutage) + Count(ops, WorkerOutage) + Count(ops, AcknowledgementReplay)
  {
    if |ops| == 0 {
    } else {
      ReservedCounts(ops[1..], buffer);
      OneMore(Count(ops[1..], ApiOutage) + Count(ops[1..], WorkerOutage), buffer);
    }
  }
}
