/**
 A run of the end-to-end machine: a reading is measured, saved, posted and committed; the reply is lost, the
 device records the failure and loses power; after a reboot it posts the same request again, the service
 replays its answer, and the reading leaves the queue, stored once.
 */
module LostReply {
  import opened Common
  import opened DeviceState
  import opened StateStore
  import opened UploadQueue
  import opened Wire
  import opened EndToEnd
  import opened ClientRuns
  import I = Ingestion
  import T = IngestionTransactions

  lemma SaveCompletes(c: Config, s: System, next: State, purpose: Purpose) returns (s': System)
    requires Reachable(c, s) && s.power.On? && s.power.activity == Saving(next, Opening, purpose)
    ensures Reachable(c, s') && s' == s.(disk := SavedDisk(s.disk, next), power := On(next, Idle, s.power.limits))
  {
    var d, doc, mem := s.disk, StateDocument(next), s.power.mem;
    var d1 := d.(temporary := Torn);
    var d2 := d.(temporary := Document(doc));
    var d3 := Disk(d.primary, Absent, Document(doc));
    var d4 := Disk(Absent, d.primary, Document(doc));
    var s1 := s.(disk := d1, power := s.power.(activity := Saving(next, Writing, purpose)));
    var s2 := s.(disk := d2, power := s.power.(activity := Saving(next, Removing, purpose)));
    var s3 := s.(disk := d3, power := s.power.(activity := Saving(next, Retiring, purpose)));
    var s4 := s.(disk := d4, power := s.power.(activity := Saving(next, Promoting, purpose)));
    s' := s.(disk := SavedDisk(d, next), power := On(next, Idle, s.power.limits));
    StepReachable(c, s, SaveOperation(true), s1);
    StepReachable(c, s1, SaveOperation(true), s2);
    StepReachable(c, s2, SaveOperation(true), s3);
    StepReachable(c, s3, SaveOperation(true), s4);
    StepReachable(c, s4, SaveOperation(true), s');
  }

  lemma ServeReachable(c: Config, s: System, inner: T.Step, v: T.State) returns (s': System)
    requires Reachable(c, s) && T.Next(s.server, inner, v) && (inner.Begin? ==> inner.req in s.sent)
    ensures Reachable(c, s') && s' == s.(server := v)
  {
    s' := s.(server := v);
    StepReachable(c, s, Serve(inner), s');
  }

  /** The service starts a transaction for a request the network delivers. */
  lemma Delivered(c: Config, s: System, t: nat, req: I.Request) returns (s': System)
    requires Reachable(c, s) && req in s.sent && s.server.txs == map[] && |req.body.readings| > 0
    ensures Reachable(c, s')
    ensures s' == s.(server := s.server.(txs := map[t := T.Tx(req, T.LastOf(s.server.last, req.device), T.Started)],
                                         begun := s.server.begun + {req}))
  {
    s' := ServeReachable(c, s, T.Begin(t, req),
                         s.server.(txs := map[t := T.Tx(req, T.LastOf(s.server.last, req.device), T.Started)],
                                   begun := s.server.begun + {req}));
  }

  /** The service commits a one-reading request it has not seen. */
  lemma ServedFresh(c: Config, s: System, t: nat, id: nat, req: I.Request) returns (s': System)
    requires Reachable(c, s) && req in s.sent && s.server.txs == map[] && id !in s.server.ids
    requires |req.body.readings| == 1 && s.server.db == I.EMPTY_DB
    ensures Reachable(c, s') && s' == s.(server := s'.server)
    ensures s'.server.txs == map[] && (req, I.Accepted(I.AckFor(id, req, 1))) in s'.server.responses
    ensures s'.server.db
            == I.Committed(I.EMPTY_DB, id, req, [I.MeasurementRow(req.device, id, req.body.readings[0])])
  {
    s' := Delivered(c, s, t, req);
    var v2, v3, v4, v5 := T.OneReadingSteps(s'.server, t, id);
    s' := ServeReachable(c, s', T.Reserve(t, id), v2);
    s' := ServeReachable(c, s', T.Insert(t), v3);
    s' := ServeReachable(c, s', T.Stage(t), v4);
    s' := ServeReachable(c, s', T.Commit(t), v5);
  }

  /** The service replays the answer of a request it has committed. */
  lemma ServedAgain(c: Config, s: System, t: nat, req: I.Request, ack: I.Ack) returns (s': System)
    requires Reachable(c, s) && req in s.sent && s.server.txs == map[] && |req.body.readings| > 0
    requires I.Find(s.server.db.requests, req.device, req.key)
             == Some(I.RequestRow(ack.requestId, req.device, req.key, req.body, Some(ack)))
    ensures Reachable(c, s') && s' == s.(server := s'.server) && s'.server.db == s.server.db
    ensures (req, I.Replayed(ack)) in s'.server.responses && s.server.responses <= s'.server.responses
  {
    s' := Delivered(c, s, t, req);
    var v1 := s'.server;
    var v2 := T.WithPhase(v1, t, T.Answering(ack));
    var v3 := T.Finish(v2, t, I.Replayed(ack)).(last := T.LastAfter(v1.last, v2.txs[t]));
    s' := ServeReachable(c, s', T.Reserve(t, 0), v2);
    s' := ServeReachable(c, s', T.Commit(t), v3);
  }

  /** The device up to its first post. */
  lemma FirstPost(c: Config, limits: Limits, pm25: real, observedAt: string) returns (s: System, x: State)
    requires ValidLimits(limits) && 0.0 <= pm25 <= 5000.0
    ensures Reachable(c, s) && Healthy(x)
    ensures x == Enqueued(DEFAULT_STATE, Reading(1, observedAt, pm25), limits.maxPending)
    ensures Batch(x, limits.batchSize) == [Reading(1, observedAt, pm25)]
    ensures var req := BatchRequest(c.device, Batch(x, limits.batchSize));
            s.power == On(x, Waiting(req), limits) && req in s.sent && s.server == T.INITIAL
  {
    var s0 := System(Off, EMPTY_DISK, {}, T.INITIAL, map[]);
    assert IsRun(c, [s0], []) && [s0][|[s0]| - 1] == s0;
    var s1 := s0.(power := On(DEFAULT_STATE, Idle, limits));
    StepReachable(c, s0, Boot(limits), s1);
    x := Enqueued(DEFAULT_STATE, Reading(1, observedAt, pm25), limits.maxPending);
    var s2 := StartSave(s1, x, ForReading);
    StepReachable(c, s1, Measure(pm25, observedAt), s2);
    var s3 := SaveCompletes(c, s2, x, ForReading);
    DefaultHealthy();
    EnqueuedHealthy(DEFAULT_STATE, Reading(1, observedAt, pm25), limits.maxPending);
    var batch := Batch(x, limits.batchSize);
    assert batch == [Reading(1, observedAt, pm25)];
    var req := BatchRequest(c.device, batch);
    s := s3.(power := On(x, Waiting(req), limits), sent := s3.sent + {req}, posted := s3.posted + Entries(batch));
    StepReachable(c, s3, Post, s);
  }

  /** Losing the reply, the power and the memory, then posting what the flash brings back. */
  lemma PostedAgain(c: Config, s: System, limits: Limits, x: State) returns (s': System)
    requires Reachable(c, s) && ValidLimits(limits) && Healthy(x)
    requires Batch(x, limits.batchSize) != [] && Postable(Batch(x, limits.batchSize))
    requires s.power == On(x, Waiting(BatchRequest(c.device, Batch(x, limits.batchSize))), limits)
    ensures Reachable(c, s') && s'.server == s.server
    ensures var y := FailureRecorded(x, None);
            && s'.power == On(y, Waiting(BatchRequest(c.device, Batch(x, limits.batchSize))), limits)
            && BatchRequest(c.device, Batch(x, limits.batchSize)) in s'.sent
  {
    var y := FailureRecorded(x, None);
    var s1 := StartSave(s, y, ForFailure);
    StepReachable(c, s, Failure(None), s1);
    var s2 := SaveCompletes(c, s1, y, ForFailure);
    var s3 := s2.(power := Off);
    StepReachable(c, s2, PowerLoss, s3);
    FailureHealthy(x, None);
    HealthyReadable(y);
    assert Read(s3.disk.primary) == Some(y);
    var s4 := s3.(power := On(y, Idle, limits));
    StepReachable(c, s3, Boot(limits), s4);
    var batch := Batch(y, limits.batchSize);
    assert batch == Batch(x, limits.batchSize);
    var req := BatchRequest(c.device, batch);
    s' := s4.(power := On(y, Waiting(req), limits), sent := s4.sent + {req}, posted := s4.posted + Entries(batch));
    StepReachable(c, s4, Post, s');
  }

  lemma LostReplyIsRecovered(c: Config, limits: Limits, pm25: real, observedAt: string) returns (s: System)
    requires ValidLimits(limits) && 0.0 <= pm25 <= 5000.0
    ensures Reachable(c, s) && IdleOn(s)
    ensures s.power.mem.pending == [] && s.power.mem.lastAcknowledged == Some(1) && s.power.mem.dropped == 0
    ensures var db := s.server.db;
            && |db.requests| == |db.measurements| == |db.events| == 1
            && db.measurements[0].reading == Input(Reading(1, observedAt, pm25))
            && exists req, ack ::
                 (req, I.Replayed(ack)) in s.server.responses && (req, I.Accepted(ack)) in s.server.responses
  {
    var s1, x := FirstPost(c, limits, pm25, observedAt);
    var batch := Batch(x, limits.batchSize);
    var req := BatchRequest(c.device, batch);
    var s2 := ServedFresh(c, s1, 1, 7, req);
    var s3 := PostedAgain(c, s2, limits, x);
    var ack := I.Ack(7, c.device, 1, 0);
    var s4 := ServedAgain(c, s3, 2, req, ack);
    var y := FailureRecorded(x, None);
    assert Batch(y, limits.batchSize) == batch;
    var z := Acknowledged(y, limits.batchSize);
    var s5 := StartSave(s4, z, ForAcknowledgement);
    StepReachable(c, s4, Acknowledge(I.Replayed(ack)), s5);
    s := SaveCompletes(c, s5, z, ForAcknowledgement);
  }
}
