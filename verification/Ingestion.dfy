/**
 The committed database of the ingestion service and the effect of one whole ingestion transaction on it.
 Tables are sequences of rows in commit order; the unique constraints are proved, not built in.
 A body is its readings together with `layout`, which stands for everything else about the posted bytes
 (spacing, key order, ignored fields), so equal bodies are exactly bodies with equal SHA-256 digests.
 */
module Ingestion {
  import opened Common

  datatype ReadingInput = ReadingInput(
    sequence: nat, observedAt: string, pm25: real, temperature: Option<real>, humidity: Option<real>)

  datatype Body = Body(readings: seq<ReadingInput>, layout: nat)

  datatype Request = Request(device: string, key: string, body: Body)

  /** The stored response body. */
  datatype Ack = Ack(requestId: nat, device: string, accepted: nat, duplicates: int)

  datatype RequestRow = RequestRow(id: nat, device: string, key: string, body: Body, response: Option<Ack>)

  datatype MeasurementRow = MeasurementRow(device: string, requestId: nat, reading: ReadingInput)

  /** A `measurements.ingested` event, as it is first written to the outbox. */
  datatype EventRow = EventRow(aggregateId: nat, payload: Ack)

  datatype Db = Db(requests: seq<RequestRow>, measurements: seq<MeasurementRow>, events: seq<EventRow>)

  datatype Outcome = Accepted(ack: Ack) | Replayed(ack: Ack) | Conflict | InProgress

  const EMPTY_DB := Db([], [], [])

  predicate SameSlot(m: MeasurementRow, device: string, sequence: nat) {
    m.device == device && m.reading.sequence == sequence
  }

  predicate Has(ms: seq<MeasurementRow>, device: string, sequence: nat) {
    exists i :: 0 <= i < |ms| && SameSlot(ms[i], device, sequence)
  }

  predicate Matches(row: RequestRow, device: string, key: string) {
    row.device == device && row.key == key
  }

  function Find(requests: seq<RequestRow>, device: string, key: string): (r: Option<RequestRow>)
    ensures r.Some? ==> r.value in requests && Matches(r.value, device, key)
    ensures r.None? ==> forall i :: 0 <= i < |requests| ==> !Matches(requests[i], device, key)
  {
    if |requests| == 0 then None
    else if Matches(requests[|requests| - 1], device, key) then Some(requests[|requests| - 1])
    else Find(requests[..|requests| - 1], device, key)
  }

  /** The rows an insert-or-ignore of `readings` adds to `ms`, in order. */
  function FreshRows(ms: seq<MeasurementRow>, device: string, id: nat, readings: seq<ReadingInput>)
    : (rows: seq<MeasurementRow>)
    ensures |rows| <= |readings|
  {
    if |readings| == 0 then []
    else
      var rows := FreshRows(ms, device, id, readings[..|readings| - 1]);
      var r := readings[|readings| - 1];
      if Has(ms + rows, device, r.sequence) then rows else rows + [MeasurementRow(device, id, r)]
  }

  /** The greatest sequence of a batch. */
  function BatchMax(readings: seq<ReadingInput>): nat {
    if |readings| == 0 then 0
    else Max(BatchMax(readings[..|readings| - 1]), readings[|readings| - 1].sequence)
  }

  function AckFor(id: nat, req: Request, inserted: nat): Ack {
    Ack(id, req.device, inserted, |req.body.readings| - inserted)
  }

  function Committed(db: Db, id: nat, req: Request, rows: seq<MeasurementRow>): Db {
    var ack := AckFor(id, req, |rows|);
    Db(db.requests + [RequestRow(id, req.device, req.key, req.body, Some(ack))],
       db.measurements + rows,
       db.events + [EventRow(id, ack)])
  }

  /** What a transaction answers when the idempotency key is already taken by `row`. */
  function Existing(row: RequestRow, req: Request): Outcome {
    if row.body != req.body then Conflict
    else if row.response.None? then InProgress
    else Replayed(row.response.value)
  }

  /** One ingestion transaction run on its own, with `id` the identifier it draws. */
  function Ingest(db: Db, id: nat, req: Request): (Db, Outcome) {
    match Find(db.requests, req.device, req.key)
    case Some(row) => (db, Existing(row, req))
    case None =>
      var rows := FreshRows(db.measurements, req.device, id, req.body.readings);
      (Committed(db, id, req, rows), Accepted(AckFor(id, req, |rows|)))
  }

  // ---- invariants of the committed database ----

  ghost predicate UniqueKeys(rs: seq<RequestRow>) {
    forall i, j :: 0 <= i < j < |rs| ==> !Matches(rs[i], rs[j].device, rs[j].key)
  }

  ghost predicate UniqueIds(rs: seq<RequestRow>) {
    forall i, j :: 0 <= i < j < |rs| ==> rs[i].id != rs[j].id
  }

  ghost predicate UniqueSlots(ms: seq<MeasurementRow>) {
    forall i, j :: 0 <= i < j < |ms| ==> !SameSlot(ms[i], ms[j].device, ms[j].reading.sequence)
  }

  ghost predicate AllStored(ms: seq<MeasurementRow>, device: string, readings: seq<ReadingInput>) {
    forall r :: r in readings ==> Has(ms, device, r.sequence)
  }

  function Owned(ms: seq<MeasurementRow>, id: nat): nat {
    if |ms| == 0 then 0
    else Owned(ms[..|ms| - 1], id) + (if ms[|ms| - 1].requestId == id then 1 else 0)
  }

  /** A committed request is answered, its answer accounts for its batch, and it owns what it accepted. */
  ghost predicate RequestOk(db: Db, row: RequestRow) {
    && row.response.Some?
    && row.response.value.requestId == row.id
    && row.response.value.device == row.device
    && row.response.value.accepted + row.response.value.duplicates == |row.body.readings|
    && row.response.value.duplicates >= 0
    && Owned(db.measurements, row.id) == row.response.value.accepted
    && AllStored(db.measurements, row.device, row.body.readings)
  }

  ghost predicate OwnedBy(m: MeasurementRow, row: RequestRow) {
    row.id == m.requestId && row.device == m.device && m.reading in row.body.readings
  }

  ghost predicate HasOwner(db: Db, m: MeasurementRow) {
    exists row :: row in db.requests && OwnedBy(m, row)
  }

  ghost predicate EventsMatch(db: Db) {
    && |db.events| == |db.requests|
    && forall i :: 0 <= i < |db.requests| ==>
         && db.requests[i].response.Some?
         && db.events[i] == EventRow(db.requests[i].id, db.requests[i].response.value)
  }

  function SumAccepted(rs: seq<RequestRow>, device: string): nat {
    if |rs| == 0 then 0
    else
      var row := rs[|rs| - 1];
      SumAccepted(rs[..|rs| - 1], device)
      + (if row.device == device && row.response.Some? then row.response.value.accepted else 0)
  }

  function CountRows(ms: seq<MeasurementRow>, device: string): nat {
    if |ms| == 0 then 0
    else CountRows(ms[..|ms| - 1], device) + (if ms[|ms| - 1].device == device then 1 else 0)
  }

  ghost predicate Conserved(db: Db) {
    forall device :: SumAccepted(db.requests, device) == CountRows(db.measurements, device)
  }

  ghost predicate DbInv(db: Db) {
    && UniqueKeys(db.requests)
    && UniqueIds(db.requests)
    && UniqueSlots(db.measurements)
    && (forall row :: row in db.requests ==> RequestOk(db, row))
    && (forall m :: m in db.measurements ==> HasOwner(db, m))
    && EventsMatch(db)
    && Conserved(db)
  }

  ghost predicate FreshId(db: Db, id: nat) {
    forall row :: row in db.requests ==> row.id != id
  }

  // ---- the rows one transaction inserts ----

  lemma HasAppend(a: seq<MeasurementRow>, b: seq<MeasurementRow>, device: string, sequence: nat)
    ensures Has(a + b, device, sequence) <==> Has(a, device, sequence) || Has(b, device, sequence)
  {
    if Has(a, device, sequence) {
      var i :| 0 <= i < |a| && SameSlot(a[i], device, sequence);
      assert (a + b)[i] == a[i];
    }
    if Has(b, device, sequence) {
      var i :| 0 <= i < |b| && SameSlot(b[i], device, sequence);
      assert (a + b)[|a| + i] == b[i];
    }
  }

  lemma {:induction false} FreshRowsOrigin(
    ms: seq<MeasurementRow>, device: string, id: nat, readings: seq<ReadingInput>)
    ensures forall m :: m in FreshRows(ms, device, id, readings) ==>
              m.device == device && m.requestId == id && m.reading in readings
              && !Has(ms, device, m.reading.sequence)
  {
    if |readings| == 0 {
    } else {
      var prefix := readings[..|readings| - 1];
      FreshRowsOrigin(ms, device, id, prefix);
      HasAppend(ms, FreshRows(ms, device, id, prefix), device, readings[|readings| - 1].sequence);
    }
  }

  lemma {:induction false} FreshRowsUnique(
    ms: seq<MeasurementRow>, device: string, id: nat, readings: seq<ReadingInput>)
    requires UniqueSlots(ms)
    ensures UniqueSlots(ms + FreshRows(ms, device, id, readings))
  {
    if |readings| == 0 {
      assert ms + [] == ms;
    } else {
      var prefix := readings[..|readings| - 1];
      var rows := FreshRows(ms, device, id, prefix);
      var last := MeasurementRow(device, id, readings[|readings| - 1]);
      FreshRowsUnique(ms, device, id, prefix);
      assert ms + (rows + [last]) == ms + rows + [last];
    }
  }

  lemma {:induction false} FreshRowsStore(
    ms: seq<MeasurementRow>, device: string, id: nat, readings: seq<ReadingInput>)
    ensures AllStored(ms + FreshRows(ms, device, id, readings), device, readings)
  {
    if |readings| == 0 {
    } else {
      var prefix := readings[..|readings| - 1];
      var rows := FreshRows(ms, device, id, prefix);
      var last := MeasurementRow(device, id, readings[|readings| - 1]);
      FreshRowsStore(ms, device, id, prefix);
      assert ms + (rows + [last]) == ms + rows + [last];
      forall r | r in readings ensures Has(ms + FreshRows(ms, device, id, readings), device, r.sequence) {
        HasAppend(ms + rows, [last], device, r.sequence);
        if r !in prefix {
          assert r == last.reading;
          assert SameSlot([last][0], device, r.sequence);
        }
      }
    }
  }

  /** Rows committed meanwhile do not change what a transaction inserts, unless they take one of its slots. */
  lemma {:induction false} FreshRowsStable(
    ms: seq<MeasurementRow>, added: seq<MeasurementRow>, device: string, id: nat, readings: seq<ReadingInput>)
    requires forall m :: m in FreshRows(ms, device, id, readings) ==> !Has(added, device, m.reading.sequence)
    ensures FreshRows(ms + added, device, id, readings) == FreshRows(ms, device, id, readings)
  {
    if |readings| == 0 {
    } else {
      var prefix := readings[..|readings| - 1];
      var rows := FreshRows(ms, device, id, prefix);
      var r := readings[|readings| - 1];
      forall m | m in rows ensures !Has(added, device, m.reading.sequence) {
        assert m in FreshRows(ms, device, id, readings);
      }
      FreshRowsStable(ms, added, device, id, prefix);
      HasAppend(ms, rows, device, r.sequence);
      HasAppend(ms + added, rows, device, r.sequence);
      HasAppend(ms, added, device, r.sequence);
      if !Has(ms + rows, device, r.sequence) {
        assert MeasurementRow(device, id, r) in FreshRows(ms, device, id, readings);
      }
    }
  }

  lemma {:induction false} CountsAppend(a: seq<MeasurementRow>, b: seq<MeasurementRow>, id: nat, device: string)
    ensures Owned(a + b, id) == Owned(a, id) + Owned(b, id)
    ensures CountRows(a + b, device) == CountRows(a, device) + CountRows(b, device)
  {
    if |b| == 0 {
      assert a + b == a;
    } else {
      assert (a + b)[..|a + b| - 1] == a + b[..|b| - 1];
      CountsAppend(a, b[..|b| - 1], id, device);
    }
  }

  lemma {:induction false} CountsUniform(
    ms: seq<MeasurementRow>, id: nat, device: string, other: nat, elsewhere: string)
    requires forall m :: m in ms ==> m.requestId == id && m.device == device
    ensures Owned(ms, other) == (if other == id then |ms| else 0)
    ensures CountRows(ms, elsewhere) == (if elsewhere == device then |ms| else 0)
  {
    if |ms| == 0 {
    } else {
      assert ms[|ms| - 1] in ms;
      CountsUniform(ms[..|ms| - 1], id, device, other, elsewhere);
    }
  }

  lemma {:induction false} OwnedNone(ms: seq<MeasurementRow>, id: nat)
    requires forall m :: m in ms ==> m.requestId != id
    ensures Owned(ms, id) == 0
  {
    if |ms| == 0 {
    } else {
      assert ms[|ms| - 1] in ms;
      OwnedNone(ms[..|ms| - 1], id);
    }
  }

  // ---- preservation ----

  lemma OldRequestStaysOk(db: Db, id: nat, req: Request, rows: seq<MeasurementRow>, row: RequestRow)
    requires RequestOk(db, row) && row.id != id
    requires forall m :: m in rows ==> m.requestId == id
    ensures RequestOk(Committed(db, id, req, rows), row)
  {
    var ms := db.measurements;
    CountsAppend(ms, rows, row.id, row.device);
    OwnedNone(rows, row.id);
    forall r | r in row.body.readings ensures Has(ms + rows, row.device, r.sequence) {
      HasAppend(ms, rows, row.device, r.sequence);
    }
  }

  lemma NewRequestOk(db: Db, id: nat, req: Request)
    requires DbInv(db) && FreshId(db, id)
    ensures var rows := FreshRows(db.measurements, req.device, id, req.body.readings);
            RequestOk(Committed(db, id, req, rows),
                      RequestRow(id, req.device, req.key, req.body, Some(AckFor(id, req, |rows|))))
  {
    var rows := FreshRows(db.measurements, req.device, id, req.body.readings);
    FreshRowsOrigin(db.measurements, req.device, id, req.body.readings);
    FreshRowsStore(db.measurements, req.device, id, req.body.readings);
    CountsAppend(db.measurements, rows, id, req.device);
    CountsUniform(rows, id, req.device, id, req.device);
    forall m | m in db.measurements ensures m.requestId != id {
      assert HasOwner(db, m);
    }
    OwnedNone(db.measurements, id);
  }

  lemma OwnersKept(db: Db, id: nat, req: Request)
    requires DbInv(db)
    ensures var rows := FreshRows(db.measurements, req.device, id, req.body.readings);
            var db' := Committed(db, id, req, rows);
            forall m :: m in db'.measurements ==> HasOwner(db', m)
  {
    var rows := FreshRows(db.measurements, req.device, id, req.body.readings);
    var db' := Committed(db, id, req, rows);
    FreshRowsOrigin(db.measurements, req.device, id, req.body.readings);
    var mine := db'.requests[|db.requests|];
    forall m | m in db'.measurements ensures HasOwner(db', m) {
      if m in db.measurements {
        assert HasOwner(db, m);
        var row :| row in db.requests && OwnedBy(m, row);
        assert row in db'.requests;
      } else {
        assert m in rows && mine in db'.requests && OwnedBy(m, mine);
      }
    }
  }

  lemma ConservedKept(db: Db, id: nat, req: Request)
    requires Conserved(db)
    ensures Conserved(Committed(db, id, req, FreshRows(db.measurements, req.device, id, req.body.readings)))
  {
    var rows := FreshRows(db.measurements, req.device, id, req.body.readings);
    var db' := Committed(db, id, req, rows);
    FreshRowsOrigin(db.measurements, req.device, id, req.body.readings);
    forall device ensures SumAccepted(db'.requests, device) == CountRows(db'.measurements, device) {
      assert SumAccepted(db.requests, device) == CountRows(db.measurements, device);
      assert db'.requests[..|db'.requests| - 1] == db.requests;
      CountsAppend(db.measurements, rows, id, device);
      CountsUniform(rows, id, req.device, id, device);
    }
  }

  /** Every transaction keeps every invariant of the committed database. */
  lemma IngestKeepsInv(db: Db, id: nat, req: Request)
    requires DbInv(db) && FreshId(db, id)
    ensures DbInv(Ingest(db, id, req).0)
  {
    if Find(db.requests, req.device, req.key).None? {
      var rows := FreshRows(db.measurements, req.device, id, req.body.readings);
      var db' := Committed(db, id, req, rows);
      FreshRowsUnique(db.measurements, req.device, id, req.body.readings);
      FreshRowsOrigin(db.measurements, req.device, id, req.body.readings);
      NewRequestOk(db, id, req);
      forall row | row in db'.requests ensures RequestOk(db', row) {
        if row in db.requests {
          OldRequestStaysOk(db, id, req, rows, row);
        }
      }
      OwnersKept(db, id, req);
      ConservedKept(db, id, req);
    }
  }

  /** A stored key always finds the one row that holds it. */
  lemma FindUnique(rs: seq<RequestRow>, row: RequestRow)
    requires UniqueKeys(rs) && row in rs
    ensures Find(rs, row.device, row.key) == Some(row)
  {
    var found := Find(rs, row.device, row.key);
    var j :| 0 <= j < |rs| && rs[j] == row;
    assert Matches(rs[j], row.device, row.key);
    var i :| 0 <= i < |rs| && rs[i] == found.value;
    assert i == j;
  }

  /** Any positive answer, fresh or replayed, accounts for the whole batch, which is then stored. */
  lemma AcknowledgementSound(db: Db, id: nat, req: Request)
    requires DbInv(db) && FreshId(db, id)
    ensures var (db', outcome) := Ingest(db, id, req);
            outcome.Accepted? || outcome.Replayed? ==>
              && outcome.ack.accepted + outcome.ack.duplicates == |req.body.readings|
              && AllStored(db'.measurements, req.device, req.body.readings)
  {
    var found := Find(db.requests, req.device, req.key);
    if found.None? {
      NewRequestOk(db, id, req);
    } else {
      assert RequestOk(db, found.value);
    }
  }

  /** Delivering a request again, at any later time, repeats the first answer and changes nothing. */
  lemma RedeliveryRepeatsAnswer(db: Db, row: RequestRow, id: nat)
    requires DbInv(db) && row in db.requests
    ensures Ingest(db, id, Request(row.device, row.key, row.body)) == (db, Replayed(row.response.value))
  {
    FindUnique(db.requests, row);
    assert RequestOk(db, row);
  }

  /** The conflict answer is given exactly when the key is stored with another body; "in progress" never is. */
  lemma ConflictExactly(db: Db, id: nat, req: Request)
    requires DbInv(db)
    ensures Ingest(db, id, req).1.Conflict? <==>
              exists row :: row in db.requests && row.device == req.device && row.key == req.key && row.body != req.body
    ensures !Ingest(db, id, req).1.InProgress?
    ensures !Ingest(db, id, req).1.Accepted? ==> Ingest(db, id, req).0 == db
  {
    var found := Find(db.requests, req.device, req.key);
    if found.Some? {
      assert RequestOk(db, found.value);
    }
    forall row | row in db.requests && Matches(row, req.device, req.key) ensures found == Some(row) {
      FindUnique(db.requests, row);
    }
  }

  lemma EmptyInv()
    ensures DbInv(EMPTY_DB)
  {
  }
}
