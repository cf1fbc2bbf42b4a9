/** Device and service together: which posts of the firmware the service's handler accepts, and as what. */
module PostedCalls {
  import opened Common
  import opened DeviceState
  import opened UploadQueue
  import opened IdempotencyKey
  import opened Validation
  import opened Wire
  import opened IngestionService
  import opened EndToEnd
  import opened ClientRuns

  const FIRMWARE_VERSION := "2026.08.24+ops1"

  /** What the handler receives when the firmware posts a batch, with a signature that verifies. */
  function PostedCall(device: string, firmware: string, batch: seq<Reading>): Call
    requires Postable(batch)
  {
    Call(device, DeviceKey(device, batch[0].sequence, batch[|batch| - 1].sequence), Some(firmware), true,
         BatchDocument(batch), 0)
  }

  /** What device, service and clock must agree on for a batch to be accepted. */
  ghost predicate Deployed(
    devices: map<string, DeviceRow>, device: string, firmware: string, batch: seq<Reading>, maxBatchSize: int,
    clock: Clock)
    requires Postable(batch)
  {
    && device in devices && devices[device].active
    && FirmwareAccepted(firmware)
    && |device| + |Decimal(batch[0].sequence)| + |Decimal(batch[|batch| - 1].sequence)| <= 114
    && |batch| <= maxBatchSize
    && forall i :: 0 <= i < |batch| ==> clock(batch[i].observedAt).Aware?
  }

  /** What a healthy queue posts. */
  ghost predicate Posted(batch: seq<Reading>) {
    && Postable(batch)
    && (forall i :: 0 <= i < |batch| ==> 0.0 <= batch[i].pm25 <= 5000.0)
    && (forall i, j :: 0 <= i < j < |batch| ==> batch[i].sequence < batch[j].sequence)
  }

  lemma HealthyPosts(s: State, batchSize: nat)
    requires Healthy(s) && batchSize >= 1 && s.pending != []
    ensures Posted(Batch(s, batchSize))
  {
  }

  lemma PostedBatchAccepted(
    batch: seq<Reading>, device: string, firmware: string, devices: map<string, DeviceRow>, maxBatchSize: int,
    clock: Clock)
    requires Posted(batch) && DeviceIdAccepted(device)
    ensures var call := PostedCall(device, firmware, batch);
            && (Refusal(devices, call, maxBatchSize, clock).None? <==>
                Deployed(devices, device, firmware, batch, maxBatchSize, clock))
            && (Refusal(devices, call, maxBatchSize, clock).None? ==>
                  ToRequest(call, CheckBatch(call.payload, maxBatchSize, clock).value) == BatchRequest(device, batch))
  {
    DeviceKeyAccepted(device, batch[0].sequence, batch[|batch| - 1].sequence);
    BatchAccepted(batch, maxBatchSize, clock);
  }

  /**
   The handler refuses none of its checks exactly when device and service are deployed to match, and then the
   request it commits is the very one the end-to-end machine delivers.
   */
  lemma PostedCallAccepted(
    s: State, batchSize: nat, device: string, firmware: string, devices: map<string, DeviceRow>, maxBatchSize: int,
    clock: Clock)
    requires Healthy(s) && batchSize >= 1 && s.pending != [] && DeviceIdAccepted(device)
    ensures var batch := Batch(s, batchSize);
            && Postable(batch)
            && var call := PostedCall(device, firmware, batch);
            && (Refusal(devices, call, maxBatchSize, clock).None? <==>
                Deployed(devices, device, firmware, batch, maxBatchSize, clock))
            && (Refusal(devices, call, maxBatchSize, clock).None? ==>
                  ToRequest(call, CheckBatch(call.payload, maxBatchSize, clock).value) == BatchRequest(device, batch))
  {
    HealthyPosts(s, batchSize);
    PostedBatchAccepted(Batch(s, batchSize), device, firmware, devices, maxBatchSize, clock);
  }

  /** The same of every device that is idle with something to post, over every run of the end-to-end machine. */
  lemma ReachablePostAccepted(
    c: Config, s: System, firmware: string, devices: map<string, DeviceRow>, maxBatchSize: int, clock: Clock)
    requires Reachable(c, s) && IdleOn(s) && s.power.mem.pending != [] && DeviceIdAccepted(c.device)
    ensures var batch := HeadBatch(s);
            && Postable(batch)
            && var call := PostedCall(c.device, firmware, batch);
            && (Refusal(devices, call, maxBatchSize, clock).None? <==>
                Deployed(devices, c.device, firmware, batch, maxBatchSize, clock))
            && (Refusal(devices, call, maxBatchSize, clock).None? ==>
                  ToRequest(call, CheckBatch(call.payload, maxBatchSize, clock).value) == BatchRequest(c.device, batch))
  {
    ReachableInv(c, s);
    PostedCallAccepted(s.power.mem, s.power.limits.batchSize, c.device, firmware, devices, maxBatchSize, clock);
  }

  /** No check refuses a provisioned device with the released firmware and zoned clocks, up to 25-digit sequences. */
  lemma ReleasedFirmwareAccepted(
    s: State, batchSize: nat, device: string, devices: map<string, DeviceRow>, maxBatchSize: int, clock: Clock)
    requires Healthy(s) && 1 <= batchSize <= maxBatchSize && s.pending != []
    requires DeviceIdAccepted(device) && |device| <= 64 && s.nextSequence <= Power10(25)
    requires device in devices && devices[device].active
    requires forall i :: 0 <= i < |s.pending| ==> clock(s.pending[i].observedAt).Aware?
    ensures var batch := Batch(s, batchSize);
            && Postable(batch)
            && Refusal(devices, PostedCall(device, FIRMWARE_VERSION, batch), maxBatchSize, clock).None?
  {
    var batch := Batch(s, batchSize);
    PostedCallAccepted(s, batchSize, device, FIRMWARE_VERSION, devices, maxBatchSize, clock);
    StoredDeviceKeyAccepted(device, batch[0].sequence, batch[|batch| - 1].sequence);
    DeviceKeyAccepted(device, batch[0].sequence, batch[|batch| - 1].sequence);
    assert forall i :: 0 <= i < |batch| ==> batch[i] == s.pending[i];
  }

  /**
   Of the handler's replies exactly the answers are 202, and every other status is a client error the firmware can
   record without making its state unreadable.
   */
  lemma StatusesReadable(reply: Reply)
    ensures reply.Status() == 202 <==> reply.Answer?
    ensures reply.Problem? ==> 400 <= reply.Status() < 500
    ensures StatusReadable(Some(reply.Status()))
    ensures reply == Problem(AuthenticationFailed) ==> reply.Status() == 401
    ensures reply == Problem(IdempotencyConflict) ==> reply.Status() == 409
    ensures reply.Problem? && reply.reason.InvalidBatch? ==> reply.Status() == 422
  {
  }

  /**
   A measurement between two attempts at the same upload leaves key and body as they were exactly when the batch
   was already full and the queue was not: a short batch grows, and a full queue drops its oldest reading.
   */
  lemma RetryStableExactly(s: State, r: Reading, batchSize: nat, maxPending: nat, device: string)
    requires Healthy(s) && s.pending != [] && |s.pending| <= maxPending && batchSize >= 1
    requires r.sequence == s.nextSequence && 0.0 <= r.pm25 <= 5000.0
    ensures var before, after := Batch(s, batchSize), Batch(Enqueued(s, r, maxPending), batchSize);
            && Postable(before) && Postable(after)
            && (BatchRequest(device, after) == BatchRequest(device, before) <==>
                batchSize <= |s.pending| < maxPending)
  {
    var before, after := Batch(s, batchSize), Batch(Enqueued(s, r, maxPending), batchSize);
    EnqueuedHealthy(s, r, maxPending);
    if batchSize <= |s.pending| < maxPending {
      assert after == before;
    } else if BatchRequest(device, after) == BatchRequest(device, before) {
      KeyInjective("myaqi-batch-" + device, before[0].sequence, before[|before| - 1].sequence,
                   after[0].sequence, after[|after| - 1].sequence);
    }
  }
}
