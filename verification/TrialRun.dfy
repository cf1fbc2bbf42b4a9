/**
 The trial's main loop against the ingestion service.  The service is its serial specification: the trial
 posts one batch at a time, and stopping or restarting the API or the worker leaves the database as it is.
 */
module TrialRun {
  import opened Common
  import opened Trial
  import opened Ingestion
  import O = Outbox
  import P = Pipeline
  import W = OutboxWorkers

  function ToReading(item: (nat, real)): ReadingInput {
    ReadingInput(item.0, "trial", item.1, None, None)
  }

  function ToReadings(b: Batch): (readings: seq<ReadingInput>)
    ensures |readings| == |b.readings|
  {
    seq(|b.readings|, i requires 0 <= i < |b.readings| => ToReading(b.readings[i]))
  }

  function BatchRequest(device: string, b: Batch): Request {
    Request(device, b.key, Body(ToReadings(b), 0))
  }

  function CountRequests(rs: seq<RequestRow>, device: string): nat {
    if |rs| == 0 then 0
    else CountRequests(rs[..|rs| - 1], device) + (if rs[|rs| - 1].device == device then 1 else 0)
  }

  /** Exactly the sequences 1..last of the device are stored. */
  ghost predicate StoresUpto(db: Db, device: string, last: nat) {
    forall v: nat :: Has(db.measurements, device, v) <==> 1 <= v <= last
  }

  ghost predicate HasKey(batches: seq<Batch>, n: nat, key: string)
    requires n <= |batches|
  {
    exists i :: 0 <= i < n && batches[i].key == key
  }

  /** Only keys of the first `n` batches are taken. */
  ghost predicate KeysOf(db: Db, device: string, batches: seq<Batch>, n: nat)
    requires n <= |batches|
  {
    forall row :: row in db.requests && row.device == device ==> HasKey(batches, n, row.key)
  }

  // ---- what the service does with a trial batch ----

  lemma {:induction false} AllFresh(ms: seq<MeasurementRow>, device: string, id: nat, b: Batch, prefix: string, n: nat)
    requires b.first <= b.last && b == MakeBatch(prefix, b.first, b.last) && n <= |b.readings|
    requires forall v: nat :: b.first <= v <= b.last ==> !Has(ms, device, v)
    ensures |FreshRows(ms, device, id, ToReadings(b)[..n])| == n
    ensures forall v: nat ::
              Has(FreshRows(ms, device, id, ToReadings(b)[..n]), device, v) <==> b.first <= v < b.first + n
  {
    if n == 0 {
    } else {
      AllFresh(ms, device, id, b, prefix, n - 1);
      var readings := ToReadings(b);
      var rows := FreshRows(ms, device, id, readings[..n - 1]);
      var r := readings[n - 1];
      assert readings[..n][..n - 1] == readings[..n - 1];
      assert r.sequence == b.first + n - 1;
      HasAppend(ms, rows, device, r.sequence);
      var row := MeasurementRow(device, id, r);
      assert FreshRows(ms, device, id, readings[..n]) == rows + [row];
      forall v: nat ensures Has(rows + [row], device, v) <==> b.first <= v < b.first + n {
        HasAppend(rows, [row], device, v);
        assert SameSlot([row][0], device, v) <==> v == r.sequence;
      }
    }
  }

  /** The database with the first `n` batches of the trial in it. */
  ghost predicate Holds(db: Db, device: string, batches: seq<Batch>, n: nat)
    requires n <= |batches|
  {
    && DbInv(db)
    && StoresUpto(db, device, Upto(batches, n))
    && KeysOf(db, device, batches, n)
    && CountRequests(db.requests, device) == n
  }

  lemma KeyNotTaken(db: Db, device: string, batches: seq<Batch>, n: nat, readings: nat, batchSize: nat, prefix: string)
    requires Consecutive(batches, readings, batchSize, prefix) && n < |batches| && KeysOf(db, device, batches, n)
    ensures Find(db.requests, device, batches[n].key).None?
  {
    var found := Find(db.requests, device, batches[n].key);
    if found.Some? {
      assert HasKey(batches, n, found.value.key);
      var i :| 0 <= i < n && batches[i].key == found.value.key;
      BatchesDisjoint(batches, readings, batchSize, prefix, i, n);
    }
  }

  lemma KeysGrow(db: Db, device: string, batches: seq<Batch>, n: nat, added: RequestRow, db': Db)
    requires n < |batches| && KeysOf(db, device, batches, n) && added.key == batches[n].key
    requires db'.requests == db.requests + [added]
    ensures KeysOf(db', device, batches, n + 1)
  {
    forall row | row in db'.requests && row.device == device ensures HasKey(batches, n + 1, row.key) {
      if row in db.requests {
        assert HasKey(batches, n, row.key);
        var i :| 0 <= i < n && batches[i].key == row.key;
        assert batches[i].key == row.key && i < n + 1;
      } else {
        assert batches[n].key == row.key;
      }
    }
  }

  /** A batch sent for the first time is accepted in full. */
  lemma FreshSend(
    db: Db, device: string, batches: seq<Batch>, n: nat, id: nat, readings: nat, batchSize: nat, prefix: string)
    requires Consecutive(batches, readings, batchSize, prefix) && n < |batches|
    requires Holds(db, device, batches, n) && FreshId(db, id)
    ensures var (db', outcome) := Ingest(db, id, BatchRequest(device, batches[n]));
            && outcome == Accepted(Ack(id, device, |batches[n].readings|, 0))
            && |batches[n].readings| == batches[n].Size()
            && Holds(db', device, batches, n + 1)
            && db'.requests
               == db.requests
                  + [RequestRow(id, device, batches[n].key, Body(ToReadings(batches[n]), 0), Some(outcome.ack))]
  {
    var b := batches[n];
    var req := BatchRequest(device, b);
    assert BatchAt(batches, n, readings, batchSize, prefix);
    if Find(db.requests, device, b.key).Some? {
      KeyNotTaken(db, device, batches, n, readings, batchSize, prefix);
    }
    var all := ToReadings(b);
    assert all[..|all|] == all;
    AllFresh(db.measurements, device, id, b, prefix, |all|);
    var rows := FreshRows(db.measurements, device, id, all);
    var db' := Committed(db, id, req, rows);
    IngestKeepsInv(db, id, req);
    forall v: nat ensures Has(db'.measurements, device, v) <==> 1 <= v <= b.last {
      HasAppend(db.measurements, rows, device, v);
    }
    assert db'.requests[..|db.requests|] == db.requests;
    KeysGrow(db, device, batches, n, db'.requests[|db.requests|], db');
  }

  // ---- the run ----

  lemma {:induction false} ProductAtLeast(q: nat, b: nat)
    requires b >= 1
    ensures q <= b * q
  {
    if b == 1 {
    } else {
      ProductAtLeast(q, b - 1);
      assert b * q == (b - 1) * q + q;
    }
  }

  lemma Quotient(a: nat, b: nat)
    requires b >= 1
    ensures 0 <= a / b <= a
  {
    var q, r := a / b, a % b;
    assert a == b * q + r;
    ProductAtLeast(q, b);
  }

  lemma AcceptedSoFar(batches: seq<Batch>, readings: nat, batchSize: nat, prefix: string, n: nat)
    requires Consecutive(batches, readings, batchSize, prefix) && n < |batches|
    ensures Upto(batches, n) + batches[n].Size() == Upto(batches, n + 1)
  {
    assert BatchAt(batches, n, readings, batchSize, prefix);
  }

  lemma QuotientBounds(a: nat, b: nat)
    requires b >= 1
    ensures a / b * b <= a < (a / b + 1) * b
  {
    var q, r := a / b, a % b;
    assert a == b * q + r;
    assert (q + 1) * b == b * q + b;
  }

  /** `max(0, spare // (operations_left + 1))`: an equal share of the batches no fault is reserved for. */
  function SteadyCount(spare: int, operationsLeft: nat): (n: nat)
    ensures n <= Max(0, spare)
    ensures spare >= 0 ==> n * (operationsLeft + 1) <= spare < (n + 1) * (operationsLeft + 1)
  {
    if spare <= 0 then 0
    else
      Quotient(spare, operationsLeft + 1);
      QuotientBounds(spare, operationsLeft + 1);
      spare / (operationsLeft + 1)
  }

  /** The trial's three checks on an answer, before anything is counted. */
  method CheckAnswer(outcome: Outcome, size: int, expectReplay: bool) returns (ok: bool)
    ensures ok <==>
              || (outcome.Accepted? && !expectReplay && outcome.ack.accepted + outcome.ack.duplicates == size)
              || (outcome.Replayed? && expectReplay && outcome.ack.accepted + outcome.ack.duplicates == size)
  {
    if outcome.Conflict? || outcome.InProgress? {
      return false;
    }
    if outcome.ack.accepted + outcome.ack.duplicates != size {
      return false;
    }
    if outcome.Replayed? != expectReplay {
      return false;
    }
    ok := true;
  }

  class Run {
    const device: string
    const buffer: nat
    ghost const all: seq<Batch>
    ghost const readings: nat
    ghost const batchSize: nat
    ghost const prefix: string
    /** Requests committed before the trial, of other devices. */
    ghost const before: nat

    /** The deque of batches not yet taken, the service's database and the trial's counters. */
    var batches: seq<Batch>
    var db: Db
    var nextId: nat
    var uploaded: nat
    var replayed: nat
    var failedAttempts: nat
    var accepted: int
    var recovered: nat
    /** Replays answered under the identity of the first answer. */
    var identical: nat
    /** Batches taken from the deque but not sent yet. */
    ghost var popped: nat
    /** Every fresh send that was answered, in order. */
    ghost var sent: seq<Batch>

    /** The database after the first `n` batches, and nothing else, have been sent. */
    ghost predicate Stored(n: nat)
      requires n <= |all|
      reads this`db, this`nextId
    {
      && Holds(db, device, all, n) && |db.requests| == before + n
      && forall row :: row in db.requests ==> row.id < nextId
    }

    ghost predicate Valid()
      reads this`batches, this`db, this`nextId, this`uploaded, this`accepted, this`popped, this`sent
    {
      && Partition(all, readings, batchSize, prefix)
      && buffer >= 1
      && uploaded + popped <= |all|
      && batches == all[uploaded + popped..]
      && sent == all[..uploaded]
      && Stored(uploaded)
      && accepted == Upto(all, uploaded)
    }

    constructor (device: string, buffer: nat, batches: seq<Batch>, db: Db, nextId: nat,
                 ghost readings: nat, ghost batchSize: nat, ghost prefix: string)
      requires buffer >= 1 && Partition(batches, readings, batchSize, prefix)
      requires DbInv(db) && (forall row :: row in db.requests ==> row.id < nextId && row.device != device)
      requires CountRequests(db.requests, device) == 0 && forall m :: m in db.measurements ==> m.device != device
      ensures Valid() && popped == 0 && uploaded == replayed == failedAttempts == recovered == identical == 0
      ensures this.all == this.batches == batches && this.device == device && this.buffer == buffer
      ensures this.readings == readings && this.db == db && this.before == |db.requests|
    {
      this.device, this.buffer, this.all, this.readings, this.batchSize, this.prefix, this.before :=
        device, buffer, batches, readings, batchSize, prefix, |db.requests|;
      this.batches, this.db, this.nextId, this.popped, this.sent := batches, db, nextId, 0, [];
      uploaded, replayed, failedAttempts, accepted, recovered, identical := 0, 0, 0, 0, 0, 0;
      new;
      assert batches[0..] == batches;
      assert forall v: nat :: !Has(db.measurements, device, v);
    }

    /** The request row committed last answers this batch. */
    ghost predicate LastAnswers(batch: Batch)
      reads this`db
    {
      && |db.requests| > 0
      && var row := db.requests[|db.requests| - 1];
      && row.device == device && row.key == batch.key && row.body == Body(ToReadings(batch), 0)
      && row.response.Some? && row.response.value.accepted + row.response.value.duplicates == batch.Size()
    }

    ghost function LastId(): nat
      requires |db.requests| > 0
      reads this`db
    {
      db.requests[|db.requests| - 1].id
    }

    /** `deque.popleft()`, which raises on an empty deque. */
    method PopLeft() returns (batch: Batch)
      requires Valid() && |batches| > 0
      modifies this`batches, this`popped
      ensures Valid() && popped == old(popped) + 1
      ensures batch == all[uploaded + old(popped)] && |batches| == old(|batches|) - 1
    {
      batch := batches[0];
      batches := batches[1..];
      popped := popped + 1;
    }

    /** One request to the service, and its answer. */
    method PostBatch(batch: Batch, ghost again: bool) returns (outcome: Outcome)
      requires Valid()
      requires if again then LastAnswers(batch) else popped >= 1 && batch == all[uploaded]
      modifies this`db, this`nextId
      ensures again ==>
                && Valid() && db == old(db) && outcome.Replayed?
                && outcome.ack.accepted + outcome.ack.duplicates == batch.Size()
      ensures !again ==>
                && outcome.Accepted? && outcome.ack.accepted == batch.Size() && outcome.ack.duplicates == 0
                && Upto(all, uploaded) + batch.Size() == Upto(all, uploaded + 1)
                && Stored(uploaded + 1)
      ensures LastAnswers(batch) && outcome.ack.requestId == LastId()
    {
      if again {
        AnsweredAgain(batch);
      } else {
        AnsweredFirst(batch);
      }
      var (db', answer) := Ingest(db, nextId, BatchRequest(device, batch));
      db, nextId, outcome := db', nextId + 1, answer;
    }

    /**
     Posts a batch and checks the answer as the trial does; false stands for a raised exception.  It never
     raises: a first send is accepted in full, a second one is answered as a replay.
     */
    method Send(batch: Batch, expectReplay: bool) returns (ok: bool, requestId: nat)
      requires Valid()
      requires if expectReplay then LastAnswers(batch) else popped >= 1 && batch == all[uploaded]
      modifies this`db, this`nextId, this`uploaded, this`accepted, this`replayed, this`popped, this`sent
      ensures ok && Valid()
      ensures expectReplay ==>
                uploaded == old(uploaded) && popped == old(popped) && replayed == old(replayed) + 1 && db == old(db)
      ensures !expectReplay ==>
                uploaded == old(uploaded) + 1 && popped == old(popped) - 1 && replayed == old(replayed)
                && LastAnswers(batch)
      ensures LastAnswers(batch) && requestId == LastId()
    {
      var outcome := PostBatch(batch, expectReplay);
      requestId := 0;
      ok := CheckAnswer(outcome, batch.Size(), expectReplay);
      if !ok {
        return;
      }
      if expectReplay {
        replayed := replayed + 1;
      } else {
        sent := sent + [batch];
        uploaded := uploaded + 1;
        popped := popped - 1;
        accepted := accepted + outcome.ack.accepted;
      }
      requestId := outcome.ack.requestId;
    }

    lemma AnsweredAgain(batch: Batch)
      requires Valid() && LastAnswers(batch)
      ensures var (db', outcome) := Ingest(db, nextId, BatchRequest(device, batch));
              && db' == db && outcome.Replayed? && outcome.ack.accepted + outcome.ack.duplicates == batch.Size()
              && outcome.ack.requestId == LastId()
    {
      var row := db.requests[|db.requests| - 1];
      assert row in db.requests && RequestOk(db, row);
      RedeliveryRepeatsAnswer(db, row, nextId);
    }

    lemma AnsweredFirst(batch: Batch)
      requires Valid() && popped >= 1 && batch == all[uploaded]
      ensures var (db', outcome) := Ingest(db, nextId, BatchRequest(device, batch));
              && outcome.Accepted? && outcome.ack.requestId == nextId
              && outcome.ack.accepted == batch.Size() && outcome.ack.duplicates == 0
              && Holds(db', device, all, uploaded + 1)
              && Upto(all, uploaded) + batch.Size() == Upto(all, uploaded + 1)
              && db'.requests
                 == db.requests
                    + [RequestRow(nextId, device, batch.key, Body(ToReadings(batch), 0), Some(outcome.ack))]
    {
      FreshSend(db, device, all, uploaded, nextId, readings, batchSize, prefix);
      AcceptedSoFar(all, readings, batchSize, prefix, uploaded);
    }

    method SendSteady(count: nat) returns (ok: bool)
      requires Valid() && popped == 0
      modifies this
      ensures ok && Valid() && popped == 0
      ensures var n := Min(count, old(|batches|)); uploaded == old(uploaded) + n && |batches| == old(|batches|) - n
      ensures replayed == old(replayed) && failedAttempts == old(failedAttempts)
              && recovered == old(recovered) && identical == old(identical)
    {
      var n := Min(count, |batches|);
      ok := true;
      for i := 0 to n
        invariant ok && Valid() && popped == 0
        invariant uploaded == old(uploaded) + i && |batches| == old(|batches|) - i
        invariant replayed == old(replayed) && failedAttempts == old(failedAttempts)
              && recovered == old(recovered) && identical == old(identical)
      {
        var batch := PopLeft();
        var sentOk, _ := Send(batch, false);
        ok := sentOk;
      }
    }

    /** Takes `buffer` batches off the deque, then sends them in order. */
    method Outage() returns (ok: bool)
      requires Valid() && popped == 0 && |batches| >= buffer
      modifies this`batches, this`popped, this`db, this`nextId, this`uploaded, this`accepted, this`replayed, this`sent
      ensures ok && Valid() && popped == 0
      ensures uploaded == old(uploaded) + buffer && |batches| == old(|batches|) - buffer && replayed == old(replayed)
    {
      var buffered: seq<Batch> := [];
      for i := 0 to buffer
        invariant Valid() && popped == i && uploaded == old(uploaded) && |batches| == old(|batches|) - i
        invariant replayed == old(replayed)
        invariant buffered == all[uploaded..uploaded + i]
      {
        var batch := PopLeft();
        buffered := buffered + [batch];
      }
      ok := true;
      for i := 0 to buffer
        invariant ok && Valid() && popped == buffer - i && uploaded == old(uploaded) + i
        invariant replayed == old(replayed) && |batches| == old(|batches|) - buffer
        invariant buffered == all[old(uploaded)..old(uploaded) + buffer]
      {
        var sentOk, _ := Send(buffered[i], false);
        ok := sentOk;
      }
    }

    method SendTwice() returns (ok: bool)
      requires Valid() && popped == 0 && |batches| >= 1
      modifies this`batches, this`popped, this`db, this`nextId, this`uploaded, this`accepted, this`replayed, this`sent,
               this`identical
      ensures ok && Valid() && popped == 0
      ensures uploaded == old(uploaded) + 1 && |batches| == old(|batches|) - 1 && replayed == old(replayed) + 1
      ensures identical == old(identical) + 1
    {
      var batch := PopLeft();
      var first, second;
      ok, first := Send(batch, false);
      if ok {
        ok, second := Send(batch, true);
        if first == second {
          identical := identical + 1;
        }
      }
    }

    method Perform(operation: Operation) returns (ok: bool)
      requires Valid() && popped == 0
      requires |batches| >= (if operation.AcknowledgementReplay? then 1 else buffer)
      modifies this
      ensures ok && Valid() && popped == 0 && recovered == old(recovered) + 1
      ensures |batches| == old(|batches|) - (if operation.AcknowledgementReplay? then 1 else buffer)
      ensures replayed - old(replayed) == identical - old(identical)
              == (if operation.AcknowledgementReplay? then 1 else 0)
      ensures failedAttempts == old(failedAttempts) + (if operation.ApiOutage? then 1 else 0)
    {
      match operation {
        case ApiOutage =>
          // The upload tried while the API is stopped finds it unavailable.
          failedAttempts := failedAttempts + 1;
          ok := Outage();
        case WorkerOutage =>
          ok := Outage();
        case AcknowledgementReplay =>
          ok := SendTwice();
      }
      recovered := recovered + 1;
    }

    /**
     The whole plan.  With enough batches for it, no deque is ever popped empty, nothing raises, every batch is
     sent fresh exactly once, and the counters end where the trial's own checks want them.
     */
    method RunOperations(operations: seq<Operation>) returns (ok: bool)
      requires Valid() && popped == 0 && uploaded == 0 && batches == all
      requires replayed == failedAttempts == recovered == identical == 0
      requires |batches| >= Reserved(operations, buffer)
      modifies this
      ensures ok && Valid() && sent == all && batches == []
      ensures accepted == readings && recovered == |operations|
      ensures replayed == identical == Count(operations, AcknowledgementReplay)
      ensures failedAttempts == Count(operations, ApiOutage)
      ensures StoresUpto(db, device, readings) && UniqueSlots(db.measurements)
      ensures CountRequests(db.requests, device) == |all| && |db.requests| == before + |all|
    {
      ok := true;
      for i := 0 to |operations|
        invariant ok && Valid() && popped == 0 && recovered == i && replayed == identical
        invariant |batches| >= Reserved(operations[i..], buffer)
        invariant replayed + Count(operations[i..], AcknowledgementReplay) == Count(operations, AcknowledgementReplay)
        invariant failedAttempts + Count(operations[i..], ApiOutage) == Count(operations, ApiOutage)
      {
        var spare := |batches| - Reserved(operations[i..], buffer);
        ok := SendSteady(SteadyCount(spare, |operations| - i));
        assert operations[i..][1..] == operations[i + 1..];
        ok := Perform(operations[i]);
      }
      assert operations[|operations|..] == [];
      ok := SendSteady(|batches|);
    }
  }

  /** `localOrigin` is what parsing the base address says: plain HTTP to this host. */
  datatype Args = Args(
    readings: int, batchSize: int, apiFaults: int, workerFaults: int, replays: int, buffer: int,
    outageSeconds: real, localOrigin: bool)

  /** How many batches `readings` readings make. */
  function BatchCount(readings: nat, batchSize: nat): int
    requires batchSize >= 1
  {
    (readings + batchSize - 1) / batchSize
  }

  /** Nothing is stored for the device yet, and identifiers from `nextId` on are new. */
  ghost predicate NewDevice(db: Db, nextId: nat, device: string) {
    && DbInv(db)
    && (forall row :: row in db.requests ==> row.id < nextId && row.device != device)
    && forall m :: m in db.measurements ==> m.device != device
  }

  lemma {:induction false} NoRequests(rs: seq<RequestRow>, device: string)
    requires forall row :: row in rs ==> row.device != device
    ensures CountRequests(rs, device) == 0
  {
    if |rs| == 0 {
    } else {
      assert rs[|rs| - 1] in rs;
      NoRequests(rs[..|rs| - 1], device);
    }
  }

  /** The first `n` batches end at sequence `n * batchSize` or at the last reading. */
  lemma {:induction false} UptoIs(batches: seq<Batch>, readings: nat, batchSize: nat, prefix: string, n: nat)
    requires Consecutive(batches, readings, batchSize, prefix) && n <= |batches|
    ensures Upto(batches, n) == Min(readings, n * batchSize)
    ensures n > 0 ==> (n - 1) * batchSize < readings
  {
    if n == 0 {
    } else {
      UptoIs(batches, readings, batchSize, prefix, n - 1);
      assert BatchAt(batches, n - 1, readings, batchSize, prefix);
      assert n * batchSize == (n - 1) * batchSize + batchSize;
    }
  }

  lemma Below(b: nat, q: int, r: int, q': int)
    requires q < q' && r < b
    ensures b * q + r < b * q'
  {
    ProductAtLeast(b, q' - q);
    assert b * q' == b * q + (q' - q) * b;
  }

  lemma SameQuotient(b: nat, q: int, r: int, q': int, r': int)
    requires b * q + r == b * q' + r' && 0 <= r < b && 0 <= r' < b
    ensures q == q'
  {
    if q < q' {
      Below(b, q, r, q');
    } else if q' < q {
      Below(b, q', r', q);
    }
  }

  lemma QuotientIs(n: nat, b: nat, rest: nat)
    requires rest < b
    ensures (n * b + rest) / b == n
  {
    SameQuotient(b, (n * b + rest) / b, (n * b + rest) % b, n, rest);
  }

  lemma BatchesCounted(batches: seq<Batch>, readings: nat, batchSize: nat, prefix: string)
    requires Partition(batches, readings, batchSize, prefix) && readings >= 1 && batchSize >= 1
    ensures |batches| == BatchCount(readings, batchSize)
  {
    var n := |batches|;
    UptoIs(batches, readings, batchSize, prefix, n);
    assert n * batchSize == (n - 1) * batchSize + batchSize;
    QuotientIs(n, batchSize, readings + batchSize - 1 - n * batchSize);
  }

  /** The check the trial makes on its arguments is exactly the one the plan needs. */
  lemma PlanFits(batches: nat, buffer: nat, api: nat, worker: nat, replays: nat)
    ensures batches >= (api + worker) * buffer + replays <==> batches >= Reserved(Rounds(api, worker, replays), buffer)
  {
    PlanCounts(api, worker, replays);
    ReservedCounts(Rounds(api, worker, replays), buffer);
  }

  /**
   The trial on a device provisioned for it.  It runs exactly for the arguments listed here; then no
   deque is popped empty, nothing raises, and the report's checks on readings, requests, faults and replays hold.
   */
  method RunTrial(a: Args, runId: string, db: Db, nextId: nat) returns (run: Run?, ok: bool)
    requires |runId| >= 12 && NewDevice(db, nextId, "software-trial-" + runId[..8])
    ensures run != null <==>
              && a.apiFaults >= 0 && a.workerFaults >= 0 && a.replays >= 0 && a.buffer >= 1
              && a.outageSeconds >= 0.0 && a.localOrigin
              && a.readings >= 1 && 1 <= a.batchSize <= 500
              && BatchCount(a.readings, a.batchSize) >= (a.apiFaults + a.workerFaults) * a.buffer + a.replays
    ensures run != null ==>
              && ok && run.device == "software-trial-" + runId[..8]
              && Partition(run.sent, a.readings, a.batchSize, "software-trial-" + runId[..12])
              && |run.sent| == BatchCount(a.readings, a.batchSize) && run.batches == []
              && run.accepted == a.readings
              && run.recovered == a.apiFaults + a.workerFaults + a.replays
              && run.replayed == run.identical == a.replays && run.failedAttempts == a.apiFaults
              && StoresUpto(run.db, run.device, a.readings) && UniqueSlots(run.db.measurements)
              && CountRequests(run.db.requests, run.device) == |run.sent|
              && |run.db.requests| == |db.requests| + |run.sent|
  {
    if a.apiFaults < 0 || a.workerFaults < 0 || a.replays < 0 {
      return null, false;
    }
    if a.buffer < 1 || a.outageSeconds < 0.0 || !a.localOrigin {
      return null, false;
    }
    var built := BuildBatches(a.readings, a.batchSize, runId);
    if built.None? {
      return null, false;
    }
    var batches := built.value;
    ghost var prefix := "software-trial-" + runId[..12];
    BatchesCounted(batches, a.readings, a.batchSize, prefix);
    var operations := RoundRobinOperations(a.apiFaults, a.workerFaults, a.replays);
    if |batches| < (a.apiFaults + a.workerFaults) * a.buffer + a.replays {
      return null, false;
    }
    PlanFits(|batches|, a.buffer, a.apiFaults, a.workerFaults, a.replays);
    PlanCounts(a.apiFaults, a.workerFaults, a.replays);
    ReservedCounts(operations, a.buffer);
    NoRequests(db.requests, "software-trial-" + runId[..8]);
    run := new Run("software-trial-" + runId[..8], a.buffer, batches, db, nextId, a.readings, a.batchSize, prefix);
    ok := run.RunOperations(operations);
  }

  /**
   The report's outbox check, made once the outbox is drained, counts the events of the whole database: after a
   faultless trial of `batches` batches it holds exactly when no request had been committed before.
   */
  lemma OutboxCheckExactly(
    c: W.Settings, states: seq<P.System>, steps: seq<P.Step>, n: nat, before: nat, batches: nat)
    requires P.IsRun(c, states, steps) && n < |states| && P.Drained(states[n].outbox.rows)
    requires |states[n].service.db.requests| == before + batches
    ensures |P.WithStatus(states[n].outbox.rows, O.Published)| == batches <==> before == 0
  {
    P.DrainedCount(c, states, steps, n);
  }
}
