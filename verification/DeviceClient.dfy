/** The firmware's upload client over its state store. */
module DeviceClient {
  import opened Common
  import opened Json
  import opened DeviceState
  import opened StateStore
  import opened UploadQueue
  import opened IdempotencyKey
  import opened Alphabet
  import ApiOrigin
  import DeviceSecret

  /** What a post yields: nothing, or a status and, when its body decodes, the two counts in it. */
  datatype Reply = NoResponse | Response(status: int, counts: Option<(int, int)>)

  datatype ClientError =
    | InvalidConfiguration | NoValidState | InvalidValue | UploadFailed(status: Option<int>) | StorageFailed

  datatype FlushResult = FlushResult(accepted: int, duplicates: int, remaining: int)

  function ReplyStatus(reply: Reply): Option<int> {
    if reply.NoResponse? then None else Some(reply.status)
  }

  /** The reply acknowledges the whole batch; anything else is an upload failure. */
  predicate Covers(reply: Reply, size: nat) {
    reply.Response? && reply.status == 202 && reply.counts.Some? && reply.counts.value.0 + reply.counts.value.1 == size
  }

  /** The configured secret decodes to 32 bytes. */
  predicate SecretAccepted(deviceSecret: string) {
    var secret := DeviceSecret.FirmwareDecode(deviceSecret);
    secret.Ok? && |secret.value| == 32
  }

  /** Of the texts the server hands out, exactly those of 32-byte secrets are accepted. */
  lemma ProvisionedSecretAccepted(secret: seq<DeviceSecret.Byte>)
    ensures SecretAccepted(DeviceSecret.EncodeDeviceSecret(secret)) <==> |secret| == 32
  {
    DeviceSecret.SecretRoundTrip(secret);
  }

  predicate ValidValue(pm25: Number) {
    pm25.Within(0.0, 5000.0)
  }

  /** One upload: the state to save, and whether it is an acknowledgement. */
  function FlushedState(s: State, batchSize: nat, reply: Reply): State
    requires Batch(s, batchSize) != []
  {
    if Covers(reply, |Batch(s, batchSize)|) then Acknowledged(s, batchSize)
    else FailureRecorded(s, ReplyStatus(reply))
  }

  /** A contiguous queue, all of it above what has been acknowledged. */
  ghost predicate InOrder(s: State) {
    Contiguous(s) && (s.lastAcknowledged.Some? ==> 1 <= s.lastAcknowledged.value < FirstPending(s))
  }

  /** Taking one more batch off a queue already cut at a batch boundary cuts it at the next. */
  lemma BatchBoundary(queue: seq<Reading>, i: nat, batchSize: nat)
    requires i * batchSize < |queue|
    ensures var rest := queue[i * batchSize..];
            rest[Min(batchSize, |rest|)..] == queue[Min((i + 1) * batchSize, |queue|)..]
  {
    assert (i + 1) * batchSize == i * batchSize + batchSize;
  }

  /**
   A failure is recorded with a status, then another reading is measured; both saves complete.  With a status
   outside 100..599 neither primary nor backup can be read afterwards, and whatever was queued is lost.
   */
  lemma StatusDecidesLoad(
    d: Disk, s: State, status: Option<int>, r: Reading, maxPending: nat, clobbers: bool)
    requires Healthy(s) && maxPending >= 1 && r.sequence == s.nextSequence && 0.0 <= r.pm25 <= 5000.0
    ensures var failed := FailureRecorded(s, status);
            var measured := Enqueued(failed, r, maxPending);
            var d1 := SaveOutcome(d, StateDocument(failed), ALL_WORK, clobbers).0;
            var d2 := SaveOutcome(d1, StateDocument(measured), ALL_WORK, clobbers).0;
            Load(d2) == if StatusReadable(status) then Loaded(measured) else FailClosed
  {
    var failed := FailureRecorded(s, status);
    var measured := Enqueued(failed, r, maxPending);
    CompleteSave(d, failed, clobbers);
    CompleteSave(SavedDisk(d, failed), measured, clobbers);
    SaveReadRoundTrip(failed);
    SaveReadRoundTrip(measured);
    if StatusReadable(status) {
      EnqueuedHealthy(failed, r, maxPending);
      HealthyReadable(measured);
    }
  }

  /** The first counts of these replies, added up. */
  function AcceptedIn(replies: seq<Reply>): int {
    if |replies| == 0 then 0
    else
      var last := replies[|replies| - 1];
      AcceptedIn(replies[..|replies| - 1])
      + (if last.Response? && last.counts.Some? then last.counts.value.0 else 0)
  }

  /** The second counts of these replies, added up. */
  function DuplicatesIn(replies: seq<Reply>): int {
    if |replies| == 0 then 0
    else
      var last := replies[|replies| - 1];
      DuplicatesIn(replies[..|replies| - 1])
      + (if last.Response? && last.counts.Some? then last.counts.value.1 else 0)
  }

  lemma CountsSoFar(replies: seq<Reply>, n: nat)
    requires n < |replies| && replies[n].Response? && replies[n].counts.Some?
    ensures AcceptedIn(replies[..n + 1]) == AcceptedIn(replies[..n]) + replies[n].counts.value.0
    ensures DuplicatesIn(replies[..n + 1]) == DuplicatesIn(replies[..n]) + replies[n].counts.value.1
  {
    assert replies[..n + 1][..n] == replies[..n];
  }

  class MyAQIClient {
    const apiBaseUrl: string
    const deviceId: string
    const batchSize: nat
    const maxPending: nat
    const store: JsonStateStore
    var state: State

    ghost predicate Configured() {
      1 <= batchSize <= 500 && batchSize <= maxPending && DeviceIdAccepted(deviceId)
    }

    constructor (apiBaseUrl: string, deviceId: string, batchSize: nat, maxPending: nat, store: JsonStateStore,
                 state: State)
      requires 1 <= batchSize <= 500 && batchSize <= maxPending && DeviceIdAccepted(deviceId)
      ensures Configured() && this.store == store && this.state == state
      ensures this.apiBaseUrl == apiBaseUrl && this.deviceId == deviceId
      ensures this.batchSize == batchSize && this.maxPending == maxPending
    {
      this.apiBaseUrl := apiBaseUrl;
      this.deviceId, this.batchSize, this.maxPending := deviceId, batchSize, maxPending;
      this.store, this.state := store, state;
    }

    /** Checks the configuration, then loads the state; with no valid state file left there is no client. */
    static method Boot(apiBaseUrl: string, deviceId: string, deviceSecret: string, batchSize: int, maxPending: int,
                       store: JsonStateStore)
      returns (client: MyAQIClient?, error: Option<ClientError>)
      ensures client != null <==> error.None?
      ensures client != null <==>
                && ApiOrigin.OriginAccepted(apiBaseUrl)
                && 1 <= batchSize <= 500 && batchSize <= maxPending && DeviceIdAccepted(deviceId)
                && SecretAccepted(deviceSecret) && !Load(store.Contents()).FailClosed?
      ensures client != null ==>
                && (exists secret :: DeviceSecret.FirmwareDecode(deviceSecret) == Ok(secret) && |secret| == 32)
                && deviceId != ""
                && forall i :: 0 <= i < |deviceId| ==> deviceId[i] in LOWER + UPPER + DIGITS + "._:-"
      ensures client != null ==>
                && fresh(client) && client.Configured() && client.store == store && client.deviceId == deviceId
                && client.batchSize == batchSize && client.maxPending == maxPending
                && client.apiBaseUrl == ApiOrigin.StripSlashes(apiBaseUrl)
                && client.state == (match Load(store.Contents()) case Loaded(s) => s case _ => DEFAULT_STATE)
      ensures client != null && store.Contents() == Disk(Absent, Absent, Absent) ==>
                client.state == State(1, [], 0, 0, 0, None, None)
    {
      var normalizedUrl := ApiOrigin.StripSlashes(apiBaseUrl);
      forall i | 0 <= i < |deviceId|
        ensures KeyChar(deviceId[i]) <==> deviceId[i] in LOWER + UPPER + DIGITS + "._:-"
      {
        SameAlphabet(deviceId[i]);
      }
      if !ApiOrigin.OriginAccepted(apiBaseUrl) {
        return null, Some(InvalidConfiguration);
      }
      if batchSize < 1 || batchSize > 500 || maxPending < batchSize || !DeviceIdAccepted(deviceId)
         || !SecretAccepted(deviceSecret) {
        return null, Some(InvalidConfiguration);
      }
      var loaded := store.LoadState();
      match loaded {
        case FailClosed => return null, Some(NoValidState);
        case Fresh => client := new MyAQIClient(normalizedUrl, deviceId, batchSize, maxPending, store, DEFAULT_STATE);
        case Loaded(s) => client := new MyAQIClient(normalizedUrl, deviceId, batchSize, maxPending, store, s);
      }
      error := None;
    }

    /** An empty `observedAt` stands for none given; the clock's text is used instead. */
    method Enqueue(pm25: Number, observedAt: string, clockText: string, io: seq<bool>)
      returns (result: Result<Reading, ClientError>)
      requires Configured() && |io| == 6
      modifies this`state, store
      ensures !ValidValue(pm25) ==>
                result == Err(InvalidValue) && state == old(state) && store.Contents() == old(store.Contents())
      ensures ValidValue(pm25) ==>
                var text := if observedAt == "" then clockText else observedAt;
                var r := Reading(old(state).nextSequence, text, pm25.value);
                var next := Enqueued(old(state), r, maxPending);
                var (disk, pc) := SaveOutcome(old(store.Contents()), StateDocument(next), io, store.clobbers);
                && store.Contents() == disk
                && (pc.Saved? ==> result == Ok(r) && state == next)
                && (!pc.Saved? ==> result == Err(StorageFailed) && state == old(state))
      ensures result == Err(InvalidValue) <==> !(pm25.Finite? && 0.0 <= pm25.value <= 5000.0)
      ensures result.Err? ==> state == old(state)
      ensures result.Ok? ==>
                && result.value.sequence == old(state).nextSequence && state.nextSequence == old(state).nextSequence + 1
                && result.value.pm25 == pm25.value
                && result.value.observedAt == (if observedAt == "" then clockText else observedAt)
                && (|old(state).pending| < maxPending ==>
                      state.pending == old(state).pending + [result.value] && state.dropped == old(state).dropped)
                && (|old(state).pending| >= maxPending ==>
                      && state.pending == old(state).pending[1..] + [result.value]
                      && state.dropped == old(state).dropped + 1)
                && state.attempts == old(state).attempts && state.failures == old(state).failures
                && state.lastStatus == old(state).lastStatus && state.lastAcknowledged == old(state).lastAcknowledged
    {
      if !ValidValue(pm25) {
        return Err(InvalidValue);
      }
      var reading := Reading(state.nextSequence, if observedAt == "" then clockText else observedAt, pm25.value);
      var nextPending := state.pending;
      var dropped := state.dropped;
      if |nextPending| >= maxPending {
        nextPending := nextPending[1..];
        dropped := dropped + 1;
      }
      nextPending := nextPending + [reading];
      var nextState := State(state.nextSequence + 1, nextPending, dropped,
                             state.attempts, state.failures, state.lastStatus, state.lastAcknowledged);
      var saved := store.Save(nextState, io);
      if !saved {
        return Err(StorageFailed);
      }
      state := nextState;
      result := Ok(reading);
    }

    /** The failure is remembered in memory even when it cannot be saved. */
    method RecordUploadFailure(status: Option<int>, io: seq<bool>)
      requires |io| == 6
      modifies this`state, store
      ensures state == FailureRecorded(old(state), status)
      ensures store.Contents() == SaveOutcome(old(store.Contents()), StateDocument(state), io, store.clobbers).0
      ensures state.attempts == old(state).attempts + 1 && state.failures == old(state).failures + 1
      ensures state.lastStatus == status && state.lastAcknowledged == old(state).lastAcknowledged
      ensures state.pending == old(state).pending && state.nextSequence == old(state).nextSequence
      ensures state.dropped == old(state).dropped
    {
      var nextState := state.(attempts := state.attempts + 1, failures := state.failures + 1, lastStatus := status);
      var saved := store.Save(nextState, io);
      state := nextState;
    }

    method FlushOne(reply: Reply, io: seq<bool>) returns (result: Result<FlushResult, ClientError>)
      requires Configured() && |io| == 6
      modifies this`state, store
      ensures old(state).pending == [] ==>
                result == Ok(FlushResult(0, 0, 0)) && state == old(state) && store.Contents() == old(store.Contents())
      ensures old(state).pending != [] ==>
                var size := |Batch(old(state), batchSize)|;
                var next := FlushedState(old(state), batchSize, reply);
                var (disk, pc) := SaveOutcome(old(store.Contents()), StateDocument(next), io, store.clobbers);
                && store.Contents() == disk
                && (!Covers(reply, size) ==> result == Err(UploadFailed(ReplyStatus(reply))) && state == next)
                && (Covers(reply, size) && !pc.Saved? ==> result == Err(StorageFailed) && state == old(state))
                && (Covers(reply, size) && pc.Saved? ==>
                      && result == Ok(FlushResult(reply.counts.value.0, reply.counts.value.1, |next.pending|))
                      && state == next)
      ensures state.nextSequence == old(state).nextSequence && state.dropped == old(state).dropped
      ensures result.Ok? && old(state).pending != [] ==>
                var size := Min(batchSize, |old(state).pending|);
                && reply.Response? && reply.status == 202 && reply.counts.Some?
                && reply.counts.value.0 + reply.counts.value.1 == size
                && result.value == FlushResult(reply.counts.value.0, reply.counts.value.1, |old(state).pending| - size)
                && state.pending == old(state).pending[size..]
                && state.lastAcknowledged == Some(old(state).pending[size - 1].sequence)
                && state.attempts == old(state).attempts + 1 && state.failures == old(state).failures
                && state.lastStatus == Some(202)
      ensures result.Err? ==>
                && state.pending == old(state).pending && state.lastAcknowledged == old(state).lastAcknowledged
                && (result.error == StorageFailed ==> state == old(state))
                && (result.error != StorageFailed ==>
                      && state.attempts == old(state).attempts + 1 && state.failures == old(state).failures + 1
                      && state.lastStatus == (if reply.Response? then Some(reply.status) else None)
                      && result.error == UploadFailed(state.lastStatus))
    {
      if |state.pending| == 0 {
        return Ok(FlushResult(0, 0, 0));
      }
      var batch := state.pending[..Min(batchSize, |state.pending|)];
      var lastSequence := batch[|batch| - 1].sequence;
      if reply.NoResponse? {
        RecordUploadFailure(None, io);
        return Err(UploadFailed(None));
      }
      if reply.status != 202 || reply.counts.None? || reply.counts.value.0 + reply.counts.value.1 != |batch| {
        RecordUploadFailure(Some(reply.status), io);
        return Err(UploadFailed(Some(reply.status)));
      }
      var nextState := State(state.nextSequence, state.pending[|batch|..], state.dropped,
                             state.attempts + 1, state.failures, Some(reply.status), Some(lastSequence));
      var saved := store.Save(nextState, io);
      if !saved {
        return Err(StorageFailed);
      }
      state := nextState;
      result := Ok(FlushResult(reply.counts.value.0, reply.counts.value.1, |nextState.pending|));
    }

    /**
     Uploads up to `maxBatches` batches.  Every reading that was queued is reported accepted, reported duplicate
     or still queued; an error leaves the queue cut at a batch boundary; nothing is renumbered or dropped.
     */
    method Flush(maxBatches: nat, replies: seq<Reply>, ios: seq<seq<bool>>)
      returns (result: Result<FlushResult, ClientError>)
      requires Configured() && |replies| == |ios| == maxBatches
      requires forall i :: 0 <= i < maxBatches ==> |ios[i]| == 6
      modifies this`state, store
      ensures result.Ok? ==>
                && result.value.accepted + result.value.duplicates + result.value.remaining == |old(state).pending|
                && result.value.remaining == |state.pending|
      ensures exists batches :: 0 <= batches <= maxBatches
                && state.pending == old(state).pending[Min(batches * batchSize, |old(state).pending|)..]
                && (result.Ok? ==>
                      && (batches == maxBatches || state.pending == [])
                      && result.value.accepted == AcceptedIn(replies[..batches])
                      && result.value.duplicates == DuplicatesIn(replies[..batches])
                      && state.attempts == old(state).attempts + batches && state.failures == old(state).failures)
      ensures state.nextSequence == old(state).nextSequence && state.dropped == old(state).dropped
      ensures InOrder(old(state)) ==>
                && InOrder(state)
                && (old(state).lastAcknowledged.Some? ==>
                      state.lastAcknowledged.Some? && old(state).lastAcknowledged.value <= state.lastAcknowledged.value)
    {
      var total := FlushResult(0, 0, |state.pending|);
      ghost var queue := state.pending;
      var i := 0;
      while i < maxBatches && |state.pending| > 0
        invariant 0 <= i <= maxBatches
        invariant state.pending == queue[Min(i * batchSize, |queue|)..]
        invariant total.accepted + total.duplicates + total.remaining == |queue| && total.remaining == |state.pending|
        invariant total.accepted == AcceptedIn(replies[..i]) && total.duplicates == DuplicatesIn(replies[..i])
        invariant state.nextSequence == old(state).nextSequence && state.dropped == old(state).dropped
        invariant state.attempts == old(state).attempts + i && state.failures == old(state).failures
        invariant InOrder(old(state)) ==> InOrder(state)
        invariant InOrder(old(state)) && old(state).lastAcknowledged.Some? ==>
                    state.lastAcknowledged.Some? && old(state).lastAcknowledged.value <= state.lastAcknowledged.value
      {
        var current := FlushOne(replies[i], ios[i]);
        if current.Err? {
          assert state.pending == queue[Min(i * batchSize, |queue|)..];
          return Err(current.error);
        }
        BatchBoundary(queue, i, batchSize);
        CountsSoFar(replies, i);
        total := FlushResult(total.accepted + current.value.accepted, total.duplicates + current.value.duplicates,
                             current.value.remaining);
        i := i + 1;
      }
      assert state.pending == queue[Min(i * batchSize, |queue|)..];
      result := Ok(total);
    }
  }
}
