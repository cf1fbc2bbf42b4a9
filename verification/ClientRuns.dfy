/**
 The firmware's client refines the end-to-end machine: whatever its calls do to memory and flash, under any
 fate of their file operations, is a run of the machine, so the results over every run hold of the client.
 */
module ClientRuns {
  import opened Common
  import opened Json
  import opened DeviceState
  import opened StateStore
  import opened UploadQueue
  import opened DeviceClient
  import opened Wire
  import opened EndToEnd
  import I = Ingestion

  ghost predicate Path(c: Config, states: seq<System>, steps: seq<Step>) {
    && |states| == |steps| + 1
    && forall i :: 0 <= i < |steps| ==> Next(c, states[i], steps[i], states[i + 1])
  }

  /** The machine can get from `s` to `t`. */
  ghost predicate Reaches(c: Config, s: System, t: System) {
    exists states, steps :: Path(c, states, steps) && states[0] == s && states[|states| - 1] == t
  }

  ghost predicate Reachable(c: Config, s: System) {
    exists states, steps :: IsRun(c, states, steps) && states[|states| - 1] == s
  }

  lemma ReachesSelf(c: Config, s: System)
    ensures Reaches(c, s, s)
  {
    assert Path(c, [s], []) && [s][0] == s && [s][|[s]| - 1] == s;
  }

  /** A path continued by another one that starts where it ends. */
  lemma Joined(c: Config, states: seq<System>, steps: seq<Step>, more: seq<System>, further: seq<Step>)
    requires Path(c, states, steps) && Path(c, more, further) && states[|states| - 1] == more[0]
    ensures Path(c, states + more[1..], steps + further)
    ensures (states + more[1..])[|steps| + |further|] == more[|more| - 1]
  {
    var all, taken := states + more[1..], steps + further;
    forall i | 0 <= i < |taken| ensures Next(c, all[i], taken[i], all[i + 1]) {
      if i < |steps| {
        assert Next(c, states[i], steps[i], states[i + 1]);
      } else {
        assert Next(c, more[i - |steps|], further[i - |steps|], more[i - |steps| + 1]);
        assert all[i] == more[i - |steps|];
      }
    }
  }

  lemma ReachesThrough(c: Config, s: System, t: System, u: System)
    requires Reaches(c, s, t) && Reaches(c, t, u)
    ensures Reaches(c, s, u)
  {
    var states, steps :| Path(c, states, steps) && states[0] == s && states[|states| - 1] == t;
    var more, further :| Path(c, more, further) && more[0] == t && more[|more| - 1] == u;
    Joined(c, states, steps, more, further);
    assert (states + more[1..])[0] == s;
  }

  lemma StepReaches(c: Config, s: System, t: System, step: Step, u: System)
    requires Reaches(c, s, t) && Next(c, t, step, u)
    ensures Reaches(c, s, u)
  {
    assert Path(c, [t, u], [step]) && [t, u][0] == t && [t, u][|[t, u]| - 1] == u;
    ReachesThrough(c, s, t, u);
  }

  /** A run with two moments of it: `s` is a state of the run and `t` its last one. */
  lemma RunThrough(c: Config, s: System, t: System) returns (states: seq<System>, steps: seq<Step>, m: nat)
    requires Reachable(c, s) && Reaches(c, s, t)
    ensures IsRun(c, states, steps) && m < |states| && states[m] == s && states[|states| - 1] == t
  {
    var run, taken :| IsRun(c, run, taken) && run[|run| - 1] == s;
    var more, further :| Path(c, more, further) && more[0] == s && more[|more| - 1] == t;
    assert Path(c, run, taken);
    Joined(c, run, taken, more, further);
    states, steps, m := run + more[1..], taken + further, |taken|;
  }

  lemma StaysReachable(c: Config, s: System, t: System)
    requires Reachable(c, s) && Reaches(c, s, t)
    ensures Reachable(c, t)
  {
    var states, steps, m := RunThrough(c, s, t);
  }

  lemma StepReachable(c: Config, s: System, step: Step, s': System)
    requires Reachable(c, s) && Next(c, s, step, s')
    ensures Reachable(c, s')
  {
    ReachesSelf(c, s);
    StepReaches(c, s, s, step, s');
    StaysReachable(c, s, s');
  }

  lemma ReachableInv(c: Config, s: System)
    requires Reachable(c, s)
    ensures Inv(c, s)
  {
    var states, steps :| IsRun(c, states, steps) && states[|states| - 1] == s;
    RunInv(c, states, steps, |steps|);
  }

  // ---- a save is a run ----

  /** The system after the first `n` operations of the save that `s` is about to start. */
  function AfterSome(c: Config, s: System, next: State, purpose: Purpose, io: seq<bool>, n: nat): System
    requires s.power.On? && n <= |io|
  {
    var (disk, pc) := RunSave(s.disk, StateDocument(next), io, n, c.clobbers);
    s.(disk := disk, power := AfterOperation(s.power.mem, next, pc, purpose, s.power.limits))
  }

  lemma {:induction false} SaveIsRun(c: Config, s: System, next: State, purpose: Purpose, io: seq<bool>, n: nat)
    requires s.power.On? && s.power.activity == Saving(next, Opening, purpose) && n <= |io|
    requires KeepsState(s.disk, StateDocument(next), io, n, c.clobbers)
    ensures Reaches(c, s, AfterSome(c, s, next, purpose, io, n))
  {
    if n == 0 {
      ReachesSelf(c, s);
      assert AfterSome(c, s, next, purpose, io, 0) == s;
    } else {
      SaveIsRun(c, s, next, purpose, io, n - 1);
      var before, after := AfterSome(c, s, next, purpose, io, n - 1), AfterSome(c, s, next, purpose, io, n);
      var (disk, pc) := RunSave(s.disk, StateDocument(next), io, n - 1, c.clobbers);
      if pc.Saved? || pc.Failed? {
        assert after == before;
      } else {
        StepReaches(c, s, before, SaveOperation(io[n - 1]), after);
      }
    }
  }

  /** A complete save that brings no older state back, after which the device is idle again. */
  lemma WholeSave(c: Config, s: System, next: State, purpose: Purpose, io: seq<bool>)
    requires s.power.On? && s.power.activity == Saving(next, Opening, purpose) && |io| == 6
    requires Readable(next) && !BringsBack(s.disk, next, io, c.clobbers)
    ensures var (disk, pc) := SaveOutcome(s.disk, StateDocument(next), io, c.clobbers);
            Reaches(c, s, s.(disk := disk, power :=
              On(if pc.Saved? || purpose.ForFailure? then next else s.power.mem, Idle, s.power.limits)))
  {
    RollsBackExactly(s.disk, next, io, c.clobbers);
    SaveIsRun(c, s, next, purpose, io, 6);
    SaveEnds(s.disk, StateDocument(next), io, c.clobbers);
  }

  /** Power lost after any number of the save's operations. */
  lemma CutSaveIsRun(c: Config, s: System, next: State, purpose: Purpose, io: seq<bool>)
    requires s.power.On? && s.power.activity == Saving(next, Opening, purpose)
    requires Readable(next) && !BringsBack(s.disk, next, io, c.clobbers)
    ensures Reaches(c, s, s.(disk := SaveOutcome(s.disk, StateDocument(next), io, c.clobbers).0, power := Off))
  {
    RollsBackExactly(s.disk, next, io, c.clobbers);
    SaveIsRun(c, s, next, purpose, io, |io|);
    var cut := AfterSome(c, s, next, purpose, io, |io|);
    StepReaches(c, s, cut, PowerLoss, cut.(power := Off));
  }

  // ---- the client's calls are runs ----

  function LimitsOf(client: MyAQIClient): Limits {
    Limits(client.batchSize, client.maxPending)
  }

  /** The machine's device is this client, working on its flash. */
  ghost predicate SameDevice(c: Config, s: System, client: MyAQIClient)
    reads client, client.store
  {
    && client.Configured()
    && c == Config(client.deviceId, client.store.clobbers)
    && s.disk == client.store.Contents()
  }

  /** The machine's device is this client, between two calls. */
  ghost predicate Mirrors(c: Config, s: System, client: MyAQIClient)
    reads client, client.store
  {
    && SameDevice(c, s, client)
    && s.power == On(client.state, Idle, LimitsOf(client))
  }

  /** Starting the client over the flash the power loss left behind. */
  method Start(ghost c: Config, ghost s: System, apiBaseUrl: string, deviceId: string, deviceSecret: string,
               batchSize: int, maxPending: int, store: JsonStateStore)
    returns (client: MyAQIClient?, ghost s': System)
    requires Reachable(c, s) && s.power.Off? && s.disk == store.Contents()
    requires c == Config(deviceId, store.clobbers)
    ensures Reaches(c, s, s') && s'.disk == s.disk && s'.server == s.server
    ensures client != null ==> fresh(client) && client.store == store && Mirrors(c, s', client)
    ensures client == null ==> s' == s
  {
    ReachesSelf(c, s);
    var error;
    client, error := MyAQIClient.Boot(apiBaseUrl, deviceId, deviceSecret, batchSize, maxPending, store);
    s' := s;
    if client != null {
      s' := s.(power := On(client.state, Idle, LimitsOf(client)));
      StepReaches(c, s, s, Boot(LimitsOf(client)), s');
    }
  }

  /** The state the client is about to save when it measures. */
  function Measured(c: Config, s: System, pm25: real, observedAt: string): State
    requires s.power.On?
  {
    Enqueued(s.power.mem, Reading(s.power.mem.nextSequence, observedAt, pm25), s.power.limits.maxPending)
  }

  lemma MeasuredReadable(c: Config, s: System, pm25: real, observedAt: string)
    requires Reachable(c, s) && s.power.On? && 0.0 <= pm25 <= 5000.0
    ensures Readable(Measured(c, s, pm25, observedAt))
  {
    ReachableInv(c, s);
    EnqueuedHealthy(s.power.mem, Reading(s.power.mem.nextSequence, observedAt, pm25), s.power.limits.maxPending);
    HealthyReadable(Measured(c, s, pm25, observedAt));
  }

  /** Measuring is a run of the machine, whatever becomes of its save unless an older state is brought back. */
  method Measure(ghost c: Config, ghost s: System, client: MyAQIClient, pm25: Number, observedAt: string,
                 clockText: string, io: seq<bool>)
    returns (result: Result<Reading, ClientError>, ghost s': System)
    requires Reachable(c, s) && Mirrors(c, s, client) && |io| == 6
    requires ValidValue(pm25) ==>
               var text := if observedAt == "" then clockText else observedAt;
               !BringsBack(s.disk, Measured(c, s, pm25.value, text), io, c.clobbers)
    modifies client`state, client.store
    ensures Reaches(c, s, s') && Mirrors(c, s', client)
    ensures s'.server == s.server && s'.sent == s.sent && s'.posted == s.posted
    ensures result.Ok? ==> Queued(client.state, result.value.sequence) == Some(result.value)
  {
    s' := s;
    ReachesSelf(c, s);
    if ValidValue(pm25) {
      ghost var text := if observedAt == "" then clockText else observedAt;
      ghost var next := Measured(c, s, pm25.value, text);
      ghost var started := StartSave(s, next, ForReading);
      MeasuredReadable(c, s, pm25.value, text);
      StepReaches(c, s, s, Step.Measure(pm25.value, text), started);
      WholeSave(c, started, next, ForReading, io);
      ghost var (disk, pc) := SaveOutcome(s.disk, StateDocument(next), io, c.clobbers);
      s' := s.(disk := disk, power := On(if pc.Saved? then next else s.power.mem, Idle, s.power.limits));
      ReachesThrough(c, s, started, s');
    }
    result := client.Enqueue(pm25, observedAt, clockText, io);
  }

  /** Posting the batch at the head of a queue that is not empty. */
  lemma PostIsRun(c: Config, s: System)
    requires Reachable(c, s) && IdleOn(s) && s.power.mem.pending != []
    ensures var batch := HeadBatch(s);
            && Postable(batch)
            && Reaches(c, s, s.(power := s.power.(activity := Waiting(BatchRequest(c.device, batch))),
                               sent := s.sent + {BatchRequest(c.device, batch)}, posted := s.posted + Entries(batch)))
  {
    ReachableInv(c, s);
    var batch := HeadBatch(s);
    var req := BatchRequest(c.device, batch);
    ReachesSelf(c, s);
    StepReaches(c, s, s, Post, s.(power := s.power.(activity := Waiting(req)), sent := s.sent + {req},
                                 posted := s.posted + Entries(batch)));
  }

  ghost predicate Answers(s: System, req: I.Request, reply: DeviceClient.Reply, outcome: I.Outcome) {
    && (outcome.Accepted? || outcome.Replayed?)
    && (req, outcome) in s.server.responses
    && reply == Response(202, Some((outcome.ack.accepted, outcome.ack.duplicates)))
  }

  /** A reply the network can bring: a positive one comes from the service, any other has none or one in 100..599. */
  ghost predicate Genuine(s: System, req: I.Request, size: nat, reply: DeviceClient.Reply) {
    if Covers(reply, size) then exists outcome :: Answers(s, req, reply, outcome)
    else StatusReadable(ReplyStatus(reply))
  }

  /** What the device saves on the reply it was waiting for. */
  function PurposeOf(reply: DeviceClient.Reply, size: nat): Purpose {
    if Covers(reply, size) then ForAcknowledgement else ForFailure
  }

  /** What the device does with the reply it was waiting for, up to the save. */
  lemma ReplyIsRun(c: Config, s: System, reply: DeviceClient.Reply)
    requires Reachable(c, s) && s.power.On? && s.power.activity.Waiting?
    requires Genuine(s, s.power.activity.req, |HeadBatch(s)|, reply)
    ensures HeadBatch(s) != []
    ensures var next := FlushedState(s.power.mem, s.power.limits.batchSize, reply);
            && Readable(next)
            && Reaches(c, s, StartSave(s, next, PurposeOf(reply, |HeadBatch(s)|)))
  {
    ReachableInv(c, s);
    ReachesSelf(c, s);
    var mem, size := s.power.mem, |HeadBatch(s)|;
    if Covers(reply, size) {
      var outcome :| Answers(s, s.power.activity.req, reply, outcome);
      var next := Acknowledged(mem, s.power.limits.batchSize);
      AcknowledgedHealthy(mem, s.power.limits.batchSize);
      HealthyReadable(next);
      StepReaches(c, s, s, Acknowledge(outcome), StartSave(s, next, ForAcknowledgement));
    } else {
      var status := ReplyStatus(reply);
      var next := FailureRecorded(mem, status);
      FailureHealthy(mem, status);
      HealthyReadable(next);
      StepReaches(c, s, s, Failure(status), StartSave(s, next, ForFailure));
    }
  }

  /**
   Uploading is a run of the machine: `s` is the system after the client's post and whatever the network and
   the service did until the reply came, `s'` the system when the call returns.
   */
  method Upload(ghost c: Config, ghost s: System, client: MyAQIClient, reply: DeviceClient.Reply, io: seq<bool>)
    returns (result: Result<FlushResult, ClientError>, ghost s': System)
    requires Reachable(c, s) && SameDevice(c, s, client) && |io| == 6
    requires s.power.On? && s.power.mem == client.state && s.power.limits == LimitsOf(client)
    requires s.power.activity.Waiting?
    requires Genuine(s, s.power.activity.req, |Batch(client.state, client.batchSize)|, reply)
    requires Batch(client.state, client.batchSize) != [] ==>
               !BringsBack(s.disk, FlushedState(client.state, client.batchSize, reply), io, c.clobbers)
    modifies client`state, client.store
    ensures Reaches(c, s, s') && Mirrors(c, s', client)
    ensures s'.server == s.server && s'.sent == s.sent && s'.posted == s.posted
  {
    ReplyIsRun(c, s, reply);
    ghost var purpose := PurposeOf(reply, |Batch(client.state, client.batchSize)|);
    ghost var next := FlushedState(client.state, client.batchSize, reply);
    ghost var started := StartSave(s, next, purpose);
    WholeSave(c, started, next, purpose, io);
    ghost var (disk, pc) := SaveOutcome(s.disk, StateDocument(next), io, c.clobbers);
    ghost var mem := if pc.Saved? || purpose.ForFailure? then next else s.power.mem;
    s' := s.(disk := disk, power := On(mem, Idle, s.power.limits));
    ReachesThrough(c, s, started, s');
    result := client.FlushOne(reply, io);
  }

  // ---- what the runs guarantee, for the client itself ----

  /**
   Nothing the device has numbered by some moment `s` is lost without being counted: whatever happened since,
   the client queues it, the service has it, or it is one of the dropped readings.
   */
  lemma NothingLost(c: Config, s: System, y: State, s': System, client: MyAQIClient) returns (dropped: set<int>)
    requires Reachable(c, s) && Current(s, y) && Reaches(c, s, s') && Mirrors(c, s', client)
    ensures |dropped| == client.state.dropped && forall k :: k in dropped ==> 1 <= k < FirstPending(client.state)
    ensures y.nextSequence <= client.state.nextSequence
    ensures forall k: int :: 1 <= k < client.state.nextSequence ==>
              IsQueued(client.state, k) || I.Has(s'.server.db.measurements, c.device, k) || k in dropped
  {
    var states, steps, m := RunThrough(c, s, s');
    dropped := NoSilentLoss(c, states, steps, |steps|, client.state);
    NumberingNeverFalls(c, states, steps, m, |steps|, y, client.state);
  }

  /** A reading the client had queued when a call returned is still queued, stored as it was, or counted. */
  lemma NothingForgotten(c: Config, s: System, y: State, k: int, s': System, client: MyAQIClient)
    returns (dropped: set<int>)
    requires Reachable(c, s) && Current(s, y) && Queued(y, k).Some? && Reaches(c, s, s') && Mirrors(c, s', client)
    ensures |dropped| == client.state.dropped
    ensures || Queued(client.state, k) == Queued(y, k)
            || StoredAs(s'.server.db.measurements, c.device, Queued(y, k).value)
            || k in dropped
  {
    var states, steps, m := RunThrough(c, s, s');
    dropped := NeverForgotten(c, states, steps, m, |steps|, y, client.state, k);
  }
}
