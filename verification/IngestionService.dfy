/**
 The ingestion request handler, run on its own: every check in its order, then one database transaction whose
 writes are staged and take effect only if nothing was raised.
 */
module IngestionService {
  import opened Common
  import opened Json
  import opened Ingestion
  import opened Validation
  import opened IdempotencyKey
  import opened Alphabet
  import opened LastSequence

  datatype DeviceRow = DeviceRow(active: bool, lastSequence: Option<nat>, lastFirmware: Option<string>, lastSeenAt: int)

  datatype Reason =
    | InvalidKey | InvalidFirmware | AuthenticationFailed | InvalidBatch(error: PayloadError)
    | IdempotencyConflict | StillProcessing

  datatype Reply = Problem(reason: Reason) | Answer(ack: Ack, replayed: bool) {
    function Status(): int {
      match this
      case Answer(_, _) => 202
      case Problem(reason) =>
        match reason
        case InvalidKey => 400
        case InvalidFirmware => 400
        case AuthenticationFailed => 401
        case InvalidBatch(_) => 422
        case IdempotencyConflict => 409
        case StillProcessing => 409
    }
  }

  /** `authentic` is the verdict of the signature check; `layout` what the bytes say beyond the document. */
  datatype Call = Call(
    device: string, key: string, firmware: Option<string>, authentic: bool, payload: Json, layout: nat)

  predicate FirmwareChar(c: char) {
    'A' <= c <= 'Z' || 'a' <= c <= 'z' || '0' <= c <= '9'
  }

  predicate FirmwareAccepted(version: string) {
    && 1 <= |version| <= 64
    && FirmwareChar(version[0])
    && forall i :: 1 <= i < |version| ==> FirmwareChar(version[i]) || version[i] in "._+-"
  }

  /** The first check that refuses the call before the transaction writes anything. */
  function Refusal(devices: map<string, DeviceRow>, call: Call, maxBatchSize: int, clock: Clock): Option<Reason> {
    if !KeyAccepted(call.key) then Some(InvalidKey)
    else if call.firmware.Some? && !FirmwareAccepted(call.firmware.value) then Some(InvalidFirmware)
    else if call.device !in devices || !devices[call.device].active || !call.authentic then Some(AuthenticationFailed)
    else match CheckBatch(call.payload, maxBatchSize, clock)
      case Err(e) => Some(InvalidBatch(e))
      case Ok(_) => None
  }

  /** A header that is one to 64 characters, a letter or digit first. */
  ghost predicate FirmwareText(version: string) {
    && 1 <= |version| <= 64 && version[0] in LOWER + UPPER + DIGITS
    && forall i :: 1 <= i < |version| ==> version[i] in LOWER + UPPER + DIGITS + "._+-"
  }

  lemma FirmwareExactly(version: string)
    ensures FirmwareAccepted(version) <==> FirmwareText(version)
  {
    forall i | 0 <= i < |version| ensures FirmwareChar(version[i]) <==> version[i] in LOWER + UPPER + DIGITS {
      Ranges(version[i]);
    }
  }

  lemma KeyExactly(key: string)
    ensures KeyAccepted(key) <==>
              16 <= |key| <= 128 && forall i :: 0 <= i < |key| ==> key[i] in LOWER + UPPER + DIGITS + "._:-"
  {
    forall i | 0 <= i < |key| ensures KeyChar(key[i]) <==> key[i] in LOWER + UPPER + DIGITS + "._:-" {
      SameAlphabet(key[i]);
    }
  }

  /** An unsigned call, or one for a device that is unknown or switched off, is refused whatever else it says. */
  lemma UnsignedRefused(devices: map<string, DeviceRow>, call: Call, maxBatchSize: int, clock: Clock)
    requires !call.authentic || call.device !in devices || !devices[call.device].active
    ensures Refusal(devices, call, maxBatchSize, clock).Some?
  {
  }

  /** Exactly which calls each check refuses: the key, the firmware header, the device and its signature, the batch. */
  lemma RefusedExactly(devices: map<string, DeviceRow>, call: Call, maxBatchSize: int, clock: Clock)
    ensures var refusal := Refusal(devices, call, maxBatchSize, clock);
            var keyOk := 16 <= |call.key| <= 128
                         && forall i :: 0 <= i < |call.key| ==> call.key[i] in LOWER + UPPER + DIGITS + "._:-";
            var headerOk := call.firmware.Some? ==> FirmwareText(call.firmware.value);
            var known := call.device in devices && devices[call.device].active && call.authentic;
            && (refusal == Some(InvalidKey) <==> !keyOk)
            && (refusal == Some(InvalidFirmware) <==> keyOk && !headerOk)
            && (refusal == Some(AuthenticationFailed) <==> keyOk && headerOk && !known)
            && (refusal.Some? && refusal.value.InvalidBatch? <==>
                keyOk && headerOk && known && forall rs :: !BatchMeans(call.payload, maxBatchSize, clock, rs))
            && (refusal.None? <==>
                keyOk && headerOk && known && exists rs :: BatchMeans(call.payload, maxBatchSize, clock, rs))
  {
    KeyExactly(call.key);
    if call.firmware.Some? {
      FirmwareExactly(call.firmware.value);
    }
    var batch := CheckBatch(call.payload, maxBatchSize, clock);
    if batch.Ok? {
      AcceptedExactly(call.payload, maxBatchSize, clock, batch.value);
    }
    forall rs ensures batch == Ok(rs) <==> BatchMeans(call.payload, maxBatchSize, clock, rs) {
      AcceptedExactly(call.payload, maxBatchSize, clock, rs);
    }
  }

  function ToRequest(call: Call, readings: seq<ReadingInput>): Request {
    Request(call.device, call.key, Body(readings, call.layout))
  }

  function Heartbeat(row: DeviceRow, readings: seq<ReadingInput>, firmware: Option<string>, now: int): DeviceRow {
    row.(lastSeenAt := now,
         lastSequence := Some(Max(row.lastSequence.GetOr(0), BatchMax(readings))),
         lastFirmware := if firmware.Some? then firmware else row.lastFirmware)
  }

  /** The serial transaction, and its outcome as the handler reports it. */
  function Transacted(db: Db, id: nat, req: Request): (Db, Reply) {
    var (db', outcome) := Ingest(db, id, req);
    (db', match outcome
          case Accepted(ack) => Answer(ack, false)
          case Replayed(ack) => Answer(ack, true)
          case Conflict => Problem(IdempotencyConflict)
          case InProgress => Problem(StillProcessing))
  }

  /** Only the caller's row changes: seen now, at least at the batch's sequences, with the firmware it named. */
  ghost predicate Seen(
    devices: map<string, DeviceRow>, devices': map<string, DeviceRow>, call: Call, readings: seq<ReadingInput>,
    now: int)
  {
    && call.device in devices && devices'.Keys == devices.Keys
    && (forall other :: other in devices && other != call.device ==> devices'[other] == devices[other])
    && var row, row' := devices[call.device], devices'[call.device];
    && row'.active == row.active && row'.lastSeenAt == now
    && row'.lastFirmware == (if call.firmware.Some? then call.firmware else row.lastFirmware)
    && row'.lastSequence.Some?
    && (forall r :: r in readings ==> r.sequence <= row'.lastSequence.value)
    && (row.lastSequence.Some? ==> row.lastSequence.value <= row'.lastSequence.value)
    && (row'.lastSequence == row.lastSequence
        || exists r :: r in readings && r.sequence == row'.lastSequence.value)
  }

  /** A first answer adds the request under the new identifier; a replayed one is stored already, and adds nothing. */
  ghost predicate Answered(db: Db, db': Db, id: nat, req: Request, reply: Reply) {
    && reply.Answer?
    && (reply.replayed ==>
          && db' == db
          && exists row :: row in db.requests && row.device == req.device && row.key == req.key && row.body == req.body
                           && row.response == Some(reply.ack))
    && (!reply.replayed ==>
          && (forall row :: row in db.requests ==> row.device != req.device || row.key != req.key)
          && reply.ack.requestId == id && reply.ack.device == req.device
          && db'.requests == db.requests + [RequestRow(id, req.device, req.key, req.body, Some(reply.ack))]
          && db'.events == db.events + [EventRow(id, reply.ack)]
          && |db'.measurements| == |db.measurements| + reply.ack.accepted
          && reply.ack.accepted + reply.ack.duplicates == |req.body.readings|)
  }

  lemma HeartbeatSeen(devices: map<string, DeviceRow>, call: Call, readings: seq<ReadingInput>, now: int)
    requires call.device in devices && |readings| > 0
    ensures Seen(devices, devices[call.device := Heartbeat(devices[call.device], readings, call.firmware, now)],
                 call, readings, now)
  {
    var r := BatchMaxIsMax(readings);
  }

  /** The answer of the serial transaction, by what is stored under the key. */
  lemma TransactedExactly(db: Db, id: nat, req: Request)
    requires DbInv(db) && FreshId(db, id)
    ensures var (db', reply) := Transacted(db, id, req);
            && (reply.Answer? ==> Answered(db, db', id, req, reply))
            && (reply.Problem? ==>
                  && reply == Problem(IdempotencyConflict) && db' == db
                  && exists row :: row in db.requests && row.device == req.device && row.key == req.key
                                   && row.body != req.body)
  {
    ConflictExactly(db, id, req);
    var found := Find(db.requests, req.device, req.key);
    if found.Some? {
      assert RequestOk(db, found.value);
    }
  }

  method InsertMeasurements(ms: seq<MeasurementRow>, device: string, id: nat, readings: seq<ReadingInput>)
    returns (ms': seq<MeasurementRow>, inserted: nat)
    ensures ms' == ms + FreshRows(ms, device, id, readings)
    ensures inserted == |FreshRows(ms, device, id, readings)|
  {
    ms' := ms;
    inserted := 0;
    for i := 0 to |readings|
      invariant ms' == ms + FreshRows(ms, device, id, readings[..i])
      invariant inserted == |FreshRows(ms, device, id, readings[..i])|
    {
      assert readings[..i + 1][..i] == readings[..i];
      if !Has(ms', device, readings[i].sequence) {
        ms' := ms' + [MeasurementRow(device, id, readings[i])];
        inserted := inserted + 1;
      }
    }
    assert readings[..|readings|] == readings;
  }

  class IngestionService {
    var devices: map<string, DeviceRow>
    var db: Db
    const maxBatchSize: int

    constructor (devices: map<string, DeviceRow>, maxBatchSize: int)
      ensures this.devices == devices && db == EMPTY_DB && this.maxBatchSize == maxBatchSize
    {
      this.devices, this.db, this.maxBatchSize := devices, EMPTY_DB, maxBatchSize;
    }

    method IngestMeasurements(call: Call, id: nat, now: int, clock: Clock) returns (reply: Reply)
      requires DbInv(db) && FreshId(db, id)
      modifies this
      ensures DbInv(db)
      ensures var refusal := Refusal(old(devices), call, maxBatchSize, clock);
              refusal.Some? ==> reply == Problem(refusal.value)
      ensures Refusal(old(devices), call, maxBatchSize, clock).None? ==>
                var readings := CheckBatch(call.payload, maxBatchSize, clock).value;
                && (db, reply) == Transacted(old(db), id, ToRequest(call, readings))
                && (reply.Answer? ==>
                      var row := old(devices)[call.device];
                      devices == old(devices)[call.device := Heartbeat(row, readings, call.firmware, now)])
      ensures reply.Problem? ==> devices == old(devices) && db == old(db)
      ensures !call.authentic ==> reply.Problem? && devices == old(devices) && db == old(db)
      ensures reply.Answer? ==>
                && call.authentic && call.device in old(devices) && old(devices)[call.device].active
                && 16 <= |call.key| <= 128
                && (forall i :: 0 <= i < |call.key| ==> call.key[i] in LOWER + UPPER + DIGITS + "._:-")
                && (call.firmware.Some? ==> FirmwareText(call.firmware.value))
                && exists readings ::
                     && BatchMeans(call.payload, maxBatchSize, clock, readings)
                     && Seen(old(devices), devices, call, readings, now)
                     && Answered(old(db), db, id, ToRequest(call, readings), reply)
      ensures reply == Problem(IdempotencyConflict) ==>
                exists readings, row ::
                  && BatchMeans(call.payload, maxBatchSize, clock, readings)
                  && row in old(db).requests && row.device == call.device && row.key == call.key
                  && row.body != Body(readings, call.layout)
      ensures reply != Problem(StillProcessing)
    {
      RefusedExactly(devices, call, maxBatchSize, clock);
      if !KeyAccepted(call.key) {
        return Problem(InvalidKey);
      }
      if call.firmware.Some? && !FirmwareAccepted(call.firmware.value) {
        return Problem(InvalidFirmware);
      }
      if call.device !in devices || !devices[call.device].active {
        return Problem(AuthenticationFailed);
      }
      if !call.authentic {
        return Problem(AuthenticationFailed);
      }
      var parsed := ParseBatch(call.payload, maxBatchSize, clock);
      if parsed.Err? {
        return Problem(InvalidBatch(parsed.error));
      }
      var readings := parsed.value;
      var device := devices[call.device].(lastSeenAt := now);
      device := device.(lastSequence := Some(Max(device.lastSequence.GetOr(0), BatchMax(readings))));
      if call.firmware.Some? {
        device := device.(lastFirmware := call.firmware);
      }
      TransactedExactly(db, id, ToRequest(call, readings));
      AcceptedExactly(call.payload, maxBatchSize, clock, readings);
      HeartbeatSeen(devices, call, readings, now);
      reply := Transact(call, readings, id, device);
    }

    /** The writes of a request whose key is new: its row, its measurements, its answer and its event. */
    method Accept(call: Call, readings: seq<ReadingInput>, id: nat) returns (reply: Reply)
      requires Find(db.requests, call.device, call.key).None?
      modifies this`db
      ensures (db, reply) == Transacted(old(db), id, ToRequest(call, readings)) && reply.Answer?
    {
      var row := RequestRow(id, call.device, call.key, Body(readings, call.layout), None);
      var measurements, accepted := InsertMeasurements(db.measurements, call.device, id, readings);
      var body := Ack(id, call.device, accepted, |readings| - accepted);
      row := row.(response := Some(body));
      var event := EventRow(id, body);
      db := Db(db.requests + [row], measurements, db.events + [event]);
      reply := Answer(body, false);
    }

    /** The database part, from the key reservation to the commit; `device` is the staged device row. */
    method Transact(call: Call, readings: seq<ReadingInput>, id: nat, device: DeviceRow) returns (reply: Reply)
      requires DbInv(db) && FreshId(db, id)
      modifies this
      ensures DbInv(db)
      ensures (db, reply) == Transacted(old(db), id, ToRequest(call, readings))
      ensures devices == if reply.Answer? then old(devices)[call.device := device] else old(devices)
    {
      IngestKeepsInv(db, id, ToRequest(call, readings));
      var existing := Find(db.requests, call.device, call.key);
      if existing.None? {
        reply := Accept(call, readings, id);
        devices := devices[call.device := device];
        return;
      }
      if existing.value.body != Body(readings, call.layout) {
        return Problem(IdempotencyConflict);
      }
      if existing.value.response.None? {
        return Problem(StillProcessing);
      }
      devices := devices[call.device := device];
      reply := Answer(existing.value.response.value, true);
    }
  }

  /**
   Handled one call at a time, `last_sequence` is the greatest stored sequence after every answered call,
   fresh or replayed, overlapping or not, and unset until the first one.
   */
  lemma AnsweredKeepsLast(db: Db, id: nat, req: Request, row: DeviceRow, firmware: Option<string>, now: int)
    requires DbInv(db) && FreshId(db, id) && |req.body.readings| > 0
    requires IsLast(db.measurements, req.device, row.lastSequence)
    ensures var (db', outcome) := Ingest(db, id, req);
            (outcome.Accepted? || outcome.Replayed?) ==>
              IsLast(db'.measurements, req.device, Heartbeat(row, req.body.readings, firmware, now).lastSequence)
  {
    var (db', outcome) := Ingest(db, id, req);
    var ms, readings := db.measurements, req.body.readings;
    AcknowledgementSound(db, id, req);
    FreshRowsOrigin(ms, req.device, id, readings);
    var added := if outcome.Accepted? then FreshRows(ms, req.device, id, readings) else [];
    assert ms + [] == ms;
    if outcome.Accepted? || outcome.Replayed? {
      LastRewritten(ms, ms, added, req.device, readings, row.lastSequence, row.lastSequence);
    }
  }
}
