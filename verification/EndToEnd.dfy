/**
 One device, its flash, an unreliable network and the ingestion service, as one state machine.
 Steps are: a measurement, a single file-system operation of a save, a post, a failed or a positive reply,
 power loss, boot, and a single database step of the service.  A posted request may be delivered any number
 of times, at any later moment, or never; replies may be lost; power may be lost between any two steps.
 `sent` and `posted` record the past: every request ever posted, and the reading posted under each sequence.
 */
module EndToEnd {
  import opened Common
  import opened DeviceState
  import opened StateStore
  import opened UploadQueue
  import opened IdempotencyKey
  import opened Wire
  import I = Ingestion
  import T = IngestionTransactions

  datatype Config = Config(device: string, clobbers: bool)

  /** The queue limits the firmware is started with; they may differ from one boot to the next. */
  datatype Limits = Limits(batchSize: nat, maxPending: nat)

  datatype Purpose = ForReading | ForFailure | ForAcknowledgement

  datatype Activity = Idle | Saving(next: State, pc: SavePc, purpose: Purpose) | Waiting(req: I.Request)

  datatype Power = Off | On(mem: State, activity: Activity, limits: Limits)

  datatype System = System(
    power: Power, disk: Disk, sent: set<I.Request>, server: T.State, posted: map<int, Reading>)

  datatype Step =
    | Measure(pm25: real, observedAt: string)
    | SaveOperation(ok: bool)
    | Post
    | Failure(status: Option<int>)
    | Acknowledge(outcome: I.Outcome)
    | PowerLoss
    | Boot(limits: Limits)
    | Serve(step: T.Step)

  predicate ValidLimits(limits: Limits) {
    1 <= limits.batchSize <= 500 && limits.batchSize <= limits.maxPending
  }

  ghost predicate Init(s: System) {
    s == System(Off, EMPTY_DISK, {}, T.INITIAL, map[])
  }

  function Entries(batch: seq<Reading>): map<int, Reading> {
    if |batch| == 0 then map[]
    else Entries(batch[..|batch| - 1])[batch[|batch| - 1].sequence := batch[|batch| - 1]]
  }

  predicate IdleOn(s: System) {
    s.power.On? && s.power.activity.Idle?
  }

  function StartSave(s: System, next: State, purpose: Purpose): System
    requires s.power.On?
  {
    s.(power := s.power.(activity := Saving(next, Opening, purpose)))
  }

  /** After one operation of a save: a failed save leaves memory alone, unless it only recorded a failure. */
  function AfterOperation(mem: State, next: State, pc: SavePc, purpose: Purpose, limits: Limits): Power {
    if pc.Saved? then On(next, Idle, limits)
    else if pc.Failed? then On(if purpose.ForFailure? then next else mem, Idle, limits)
    else On(mem, Saving(next, pc, purpose), limits)
  }

  /** The batch at the head of the queue, as large as this boot's limit allows. */
  function HeadBatch(s: System): seq<Reading>
    requires s.power.On?
  {
    Batch(s.power.mem, s.power.limits.batchSize)
  }

  ghost predicate Next(c: Config, s: System, step: Step, s': System) {
    match step
    case Measure(pm25, observedAt) =>
      && IdleOn(s) && 0.0 <= pm25 <= 5000.0
      && var mem := s.power.mem;
      && var r := Reading(mem.nextSequence, observedAt, pm25);
      && s' == StartSave(s, Enqueued(mem, r, s.power.limits.maxPending), ForReading)
    case SaveOperation(ok) =>
      && s.power.On? && s.power.activity.Saving?
      && var Saving(next, pc, purpose) := s.power.activity;
      && !RollsBack(s.disk, pc, StateDocument(next), ok, c.clobbers)
      && var (disk', pc') := SaveStep(s.disk, pc, StateDocument(next), ok, c.clobbers);
      && s' == s.(disk := disk', power := AfterOperation(s.power.mem, next, pc', purpose, s.power.limits))
    case Post =>
      && IdleOn(s)
      && var batch := HeadBatch(s);
      && Postable(batch)
      && var req := BatchRequest(c.device, batch);
      && s' == s.(power := s.power.(activity := Waiting(req)), sent := s.sent + {req},
                  posted := s.posted + Entries(batch))
    case Failure(status) =>
      && s.power.On? && s.power.activity.Waiting? && StatusReadable(status)
      && s' == StartSave(s, FailureRecorded(s.power.mem, status), ForFailure)
    case Acknowledge(outcome) =>
      && s.power.On? && s.power.activity.Waiting?
      && (outcome.Accepted? || outcome.Replayed?)
      && (s.power.activity.req, outcome) in s.server.responses
      && HeadBatch(s) != []
      && outcome.ack.accepted + outcome.ack.duplicates == |HeadBatch(s)|
      && s' == StartSave(s, Acknowledged(s.power.mem, s.power.limits.batchSize), ForAcknowledgement)
    case PowerLoss =>
      && s.power.On? && s' == s.(power := Off)
    case Boot(limits) =>
      && s.power.Off? && !Load(s.disk).FailClosed? && ValidLimits(limits)
      && s' == s.(power := On(match Load(s.disk) case Loaded(m) => m case _ => DEFAULT_STATE, Idle, limits))
    case Serve(inner) =>
      && T.Next(s.server, inner, s'.server)
      && (inner.Begin? && inner.req.device == c.device ==> inner.req in s.sent)
      && s' == s.(server := s'.server)
  }

  ghost predicate IsRun(c: Config, states: seq<System>, steps: seq<Step>) {
    && |states| == |steps| + 1
    && Init(states[0])
    && forall i :: 0 <= i < |steps| ==> Next(c, states[i], steps[i], states[i + 1])
  }

  // ---- invariant ----

  /** The reading a state queues under a sequence, if any. */
  function Queued(x: State, k: int): Option<Reading> {
    var i := k - FirstPending(x);
    if 0 <= i < |x.pending| then Some(x.pending[i]) else None
  }

  /** Everything posted lies below `nextSequence` and, while still queued, is queued unchanged. */
  ghost predicate Agrees(posted: map<int, Reading>, x: State) {
    forall k :: k in posted ==> k < x.nextSequence && Queued(x, k) in {None, Some(posted[k])}
  }

  ghost predicate Below(dropped: set<int>, bound: int) {
    forall k :: k in dropped ==> 1 <= k < bound
  }

  ghost predicate StoredExcept(ms: seq<I.MeasurementRow>, device: string, bound: int, dropped: set<int>) {
    forall k: int :: 1 <= k < bound && k !in dropped ==> I.Has(ms, device, k)
  }

  ghost predicate AccountedBy(ms: seq<I.MeasurementRow>, device: string, s: State, dropped: set<int>) {
    |dropped| == s.dropped && Below(dropped, FirstPending(s)) && StoredExcept(ms, device, FirstPending(s), dropped)
  }

  /** Below the queue, everything is stored except `dropped` sequences, exactly as many as the counter says. */
  ghost predicate Accounted(ms: seq<I.MeasurementRow>, device: string, s: State) {
    exists dropped :: AccountedBy(ms, device, s, dropped)
  }

  ghost predicate StateOk(c: Config, s: System, x: State) {
    Healthy(x) && Agrees(s.posted, x) && Accounted(s.server.db.measurements, c.device, x)
  }

  /** `later` numbers at least as far; what it queues below `earlier`'s next sequence, `earlier` queued too. */
  ghost predicate Extends(earlier: State, later: State) {
    && earlier.nextSequence <= later.nextSequence
    && forall k :: k < earlier.nextSequence ==> Queued(later, k) in {None, Queued(earlier, k)}
  }

  ghost predicate DiskOk(c: Config, s: System) {
    match Load(s.disk)
    case Loaded(x) => StateOk(c, s, x)
    case Fresh => s.posted == map[]
    case FailClosed => true
  }

  ghost predicate PowerOk(c: Config, s: System) {
    s.power.On? ==>
      && ValidLimits(s.power.limits)
      && StateOk(c, s, s.power.mem)
      && (match Load(s.disk)
          case Loaded(x) => Extends(s.power.mem, x)
          case Fresh =>
            && s.power.mem == DEFAULT_STATE
            && (s.power.activity.Idle? || (s.power.activity.Saving? && s.power.activity.purpose.ForReading?))
          case FailClosed => true)
      && match s.power.activity
         case Idle => true
         case Saving(next, pc, purpose) =>
           && StateOk(c, s, next) && Extends(s.power.mem, next)
           && AtPc(s.disk, pc, StateDocument(next)) && !pc.Saved? && !pc.Failed?
           && (purpose.ForFailure? ==>
                 && next.pending == s.power.mem.pending && next.nextSequence == s.power.mem.nextSequence
                 && next.dropped == s.power.mem.dropped)
         case Waiting(req) =>
           && req in s.sent
           && Postable(HeadBatch(s))
           && req == BatchRequest(c.device, HeadBatch(s))
  }

  ghost predicate IsPosted(posted: map<int, Reading>, k: nat, reading: I.ReadingInput) {
    k in posted && posted[k].sequence == k && reading == Input(posted[k])
  }

  /** A request is determined by its first and last sequence and the readings posted between them. */
  ghost predicate IsBatch(posted: map<int, Reading>, device: string, req: I.Request, first: nat, last: nat) {
    && req.device == device && req.key == DeviceKey(device, first, last)
    && req.body.layout == 0 && first <= last && |req.body.readings| == last - first + 1
    && forall i :: 0 <= i < |req.body.readings| ==>
         IsPosted(posted, first + i, req.body.readings[i])
  }

  ghost predicate SentOk(posted: map<int, Reading>, device: string, req: I.Request) {
    exists first: nat, last: nat :: IsBatch(posted, device, req, first, last)
  }

  ghost predicate NetworkOk(c: Config, s: System) {
    && (forall req :: req in s.sent ==> SentOk(s.posted, c.device, req))
    && (forall req :: req in s.server.begun && req.device == c.device ==> req in s.sent)
  }

  ghost predicate Inv(c: Config, s: System) {
    T.Inv(s.server) && DiskOk(c, s) && PowerOk(c, s) && NetworkOk(c, s)
  }

  // ---- accounting ----

  lemma AccountedGrows(ms: seq<I.MeasurementRow>, added: seq<I.MeasurementRow>, device: string, x: State)
    requires Accounted(ms, device, x)
    ensures Accounted(ms + added, device, x)
  {
    var dropped :| AccountedBy(ms, device, x, dropped);
    forall k: int | 1 <= k < FirstPending(x) && k !in dropped ensures I.Has(ms + added, device, k) {
      I.HasAppend(ms, added, device, k);
    }
    assert AccountedBy(ms + added, device, x, dropped);
  }

  lemma EnqueueAccounted(ms: seq<I.MeasurementRow>, device: string, x: State, r: Reading, maxPending: nat)
    requires Healthy(x) && Accounted(ms, device, x)
    ensures Accounted(ms, device, Enqueued(x, r, maxPending))
  {
    var dropped :| AccountedBy(ms, device, x, dropped);
    var next := Enqueued(x, r, maxPending);
    if next.dropped == x.dropped {
      assert AccountedBy(ms, device, next, dropped);
    } else {
      assert FirstPending(x) !in dropped;
      assert AccountedBy(ms, device, next, dropped + {FirstPending(x)});
    }
  }

  lemma AcknowledgeAccounted(ms: seq<I.MeasurementRow>, device: string, x: State, batchSize: nat)
    requires Healthy(x) && Accounted(ms, device, x) && Postable(Batch(x, batchSize)) && batchSize >= 1
    requires I.AllStored(ms, device, Inputs(Batch(x, batchSize)))
    ensures Accounted(ms, device, Acknowledged(x, batchSize))
  {
    var dropped :| AccountedBy(ms, device, x, dropped);
    var batch := Batch(x, batchSize);
    var next := Acknowledged(x, batchSize);
    forall k: int | 1 <= k < FirstPending(next) && k !in dropped ensures I.Has(ms, device, k) {
      if FirstPending(x) <= k {
        assert Inputs(batch)[k - FirstPending(x)] in Inputs(batch);
      }
    }
    assert AccountedBy(ms, device, next, dropped);
  }

  // ---- the ledger of posted readings ----

  lemma {:induction false} EntriesAre(batch: seq<Reading>, first: int)
    requires forall i :: 0 <= i < |batch| ==> batch[i].sequence == first + i
    ensures forall k :: k in Entries(batch) <==> first <= k < first + |batch|
    ensures forall k :: k in Entries(batch) ==> Entries(batch)[k] == batch[k - first]
  {
    if |batch| == 0 {
    } else {
      EntriesAre(batch[..|batch| - 1], first);
    }
  }

  ghost predicate Grows(posted: map<int, Reading>, posted': map<int, Reading>) {
    forall k :: k in posted ==> k in posted' && posted'[k] == posted[k]
  }

  /** What a post adds to the ledger was queued in memory. */
  ghost predicate AddsFrom(mem: State, posted: map<int, Reading>, posted': map<int, Reading>) {
    forall k :: k in posted' && k !in posted ==> Queued(mem, k) == Some(posted'[k])
  }

  lemma PostedEntries(posted: map<int, Reading>, mem: State, batchSize: nat)
    requires Healthy(mem) && Agrees(posted, mem)
    ensures Grows(posted, posted + Entries(Batch(mem, batchSize)))
    ensures AddsFrom(mem, posted, posted + Entries(Batch(mem, batchSize)))
  {
    var batch := Batch(mem, batchSize);
    EntriesAre(batch, FirstPending(mem));
    forall k | k in Entries(batch) ensures Queued(mem, k) == Some(Entries(batch)[k]) {
      assert batch[k - FirstPending(mem)] == mem.pending[k - FirstPending(mem)];
    }
  }

  lemma PostedBatch(device: string, posted: map<int, Reading>, mem: State, batchSize: nat)
    requires Healthy(mem) && Postable(Batch(mem, batchSize))
    ensures SentOk(posted + Entries(Batch(mem, batchSize)), device, BatchRequest(device, Batch(mem, batchSize)))
  {
    var batch := Batch(mem, batchSize);
    var req := BatchRequest(device, batch);
    var first, last := batch[0].sequence, batch[|batch| - 1].sequence;
    var posted' := posted + Entries(batch);
    EntriesAre(batch, first);
    forall i | 0 <= i < |batch| ensures IsPosted(posted', first + i, req.body.readings[i]) {
      assert first + i in Entries(batch) && Entries(batch)[first + i] == batch[i];
    }
    assert IsBatch(posted', device, req, first, last);
  }

  lemma SentStays(posted: map<int, Reading>, posted': map<int, Reading>, device: string, req: I.Request)
    requires SentOk(posted, device, req) && Grows(posted, posted')
    ensures SentOk(posted', device, req)
  {
    var first: nat, last: nat :| IsBatch(posted, device, req, first, last);
    forall i | 0 <= i < |req.body.readings| ensures IsPosted(posted', first + i, req.body.readings[i]) {
      assert IsPosted(posted, first + i, req.body.readings[i]);
    }
    assert IsBatch(posted', device, req, first, last);
  }

  /** Posting from memory stays compatible with whatever the flash could bring back. */
  lemma AgreesAfterPost(posted: map<int, Reading>, posted': map<int, Reading>, mem: State, x: State)
    requires Agrees(posted, x) && Extends(mem, x) && Grows(posted, posted') && AddsFrom(mem, posted, posted')
    ensures Agrees(posted', x)
  {
    forall k | k in posted' ensures k < x.nextSequence && Queued(x, k) in {None, Some(posted'[k])} {
      if k !in posted {
        assert Queued(mem, k) == Some(posted'[k]);
      }
    }
  }

  // ---- preservation ----

  lemma EnqueuedExtends(mem: State, r: Reading, maxPending: nat)
    ensures Extends(mem, Enqueued(mem, r, maxPending))
  {
    var next := Enqueued(mem, r, maxPending);
    forall k | k < mem.nextSequence ensures Queued(next, k) in {None, Queued(mem, k)} {
    }
  }

  lemma MeasureKeepsInv(c: Config, s: System, step: Step, s': System)
    requires Inv(c, s) && step.Measure? && Next(c, s, step, s')
    ensures Inv(c, s')
  {
    var mem := s.power.mem;
    var r := Reading(mem.nextSequence, step.observedAt, step.pm25);
    var next := Enqueued(mem, r, s.power.limits.maxPending);
    EnqueuedHealthy(mem, r, s.power.limits.maxPending);
    EnqueuedExtends(mem, r, s.power.limits.maxPending);
    EnqueueAccounted(s.server.db.measurements, c.device, mem, r, s.power.limits.maxPending);
    assert Agrees(s.posted, next);
    assert StateOk(c, s', next);
  }

  /** Once the temporary file has been opened the disk is never empty again. */
  lemma FreshOnlyFirst(d: Disk, pc: SavePc, doc: Json.Json, ok: bool, clobbers: bool)
    requires AtPc(d, pc, doc)
    ensures var (d', pc') := SaveStep(d, pc, doc, ok, clobbers);
            Load(d').Fresh? ==> d' == d && (pc'.Failed? || pc'.Saved?)
  {
  }

  lemma OperationLoads(d: Disk, next: State, pc: SavePc, ok: bool, clobbers: bool)
    requires AtPc(d, pc, StateDocument(next)) && CheckDocument(StateDocument(next)) == Result.Ok(next)
    requires !RollsBack(d, pc, StateDocument(next), ok, clobbers)
    ensures var (d', pc') := SaveStep(d, pc, StateDocument(next), ok, clobbers);
            && AtPc(d', pc', StateDocument(next))
            && Load(d') in {Load(d), Loaded(next), FailClosed}
            && (pc'.Saved? && !pc.Saved? ==> Load(d') == Loaded(next))
            && (Load(d').Fresh? ==> pc'.Failed? || pc'.Saved?)
  {
    assert Read(Document(StateDocument(next))) == Some(next);
    StepLoads(d, pc, StateDocument(next), ok, clobbers);
    FreshOnlyFirst(d, pc, StateDocument(next), ok, clobbers);
  }

  lemma ExtendsSelf(x: State)
    ensures Extends(x, x)
  {
  }

  /** Recording a failure does not touch the queue, so it extends and is extended by the same states. */
  lemma SameQueueExtends(mem: State, next: State)
    requires next.pending == mem.pending && next.nextSequence == mem.nextSequence
    ensures forall x :: Extends(mem, x) ==> Extends(next, x)
  {
    forall x | Extends(mem, x) ensures Extends(next, x) {
      forall k | k < next.nextSequence ensures Queued(x, k) in {None, Queued(next, k)} {
        assert Queued(mem, k) == Queued(next, k);
      }
    }
  }

  lemma SaveKeepsPower(c: Config, s: System, ok: bool, s': System)
    requires Inv(c, s) && Next(c, s, SaveOperation(ok), s')
    requires CheckDocument(StateDocument(s.power.activity.next)) == Result.Ok(s.power.activity.next)
    ensures PowerOk(c, s')
  {
    var mem := s.power.mem;
    var next, pc, purpose := s.power.activity.next, s.power.activity.pc, s.power.activity.purpose;
    OperationLoads(s.disk, next, pc, ok, c.clobbers);
    assert StateOk(c, s', next) && StateOk(c, s', mem);
    ExtendsSelf(next);
    if purpose.ForFailure? {
      SameQueueExtends(mem, next);
    }
  }

  lemma SaveKeepsInv(c: Config, s: System, ok: bool, s': System)
    requires Inv(c, s) && Next(c, s, SaveOperation(ok), s')
    ensures Inv(c, s')
  {
    var next, pc := s.power.activity.next, s.power.activity.pc;
    HealthyReadable(next);
    OperationLoads(s.disk, next, pc, ok, c.clobbers);
    SaveKeepsPower(c, s, ok, s');
  }

  lemma PostKeepsInv(c: Config, s: System, s': System)
    requires Inv(c, s) && Next(c, s, Post, s')
    ensures Inv(c, s')
  {
    var mem := s.power.mem;
    PostedEntries(s.posted, mem, s.power.limits.batchSize);
    PostedBatch(c.device, s.posted, mem, s.power.limits.batchSize);
    AgreesAfterPost(s.posted, s'.posted, mem, mem);
    if Load(s.disk).Loaded? {
      AgreesAfterPost(s.posted, s'.posted, mem, Load(s.disk).state);
    }
    forall req | req in s'.sent ensures SentOk(s'.posted, c.device, req) {
      if req in s.sent {
        SentStays(s.posted, s'.posted, c.device, req);
      }
    }
  }

  lemma FailureKeepsInv(c: Config, s: System, status: Option<int>, s': System)
    requires Inv(c, s) && Next(c, s, Failure(status), s')
    ensures Inv(c, s')
  {
    var mem := s.power.mem;
    var next := FailureRecorded(mem, status);
    FailureHealthy(mem, status);
    var dropped :| AccountedBy(s.server.db.measurements, c.device, mem, dropped);
    assert AccountedBy(s.server.db.measurements, c.device, next, dropped);
    assert StateOk(c, s', next);
  }

  /** The batch a positive reply is for is the one in memory, and all of it is stored. */
  lemma AcknowledgedIsStored(c: Config, s: System, outcome: I.Outcome)
    requires Inv(c, s) && s.power.On? && s.power.activity.Waiting?
    requires outcome.Accepted? || outcome.Replayed?
    requires (s.power.activity.req, outcome) in s.server.responses
    ensures Postable(HeadBatch(s))
    ensures outcome.ack.accepted + outcome.ack.duplicates == |HeadBatch(s)|
    ensures I.AllStored(s.server.db.measurements, c.device, Inputs(HeadBatch(s)))
  {
    T.AnswerCoversBatch(s.server, s.power.activity.req, outcome);
  }

  lemma AcknowledgedExtends(mem: State, batchSize: nat)
    requires Batch(mem, batchSize) != []
    ensures Extends(mem, Acknowledged(mem, batchSize))
  {
    var next := Acknowledged(mem, batchSize);
    forall k ensures Queued(next, k) in {None, Queued(mem, k)} {
      var n := |Batch(mem, batchSize)|;
      assert FirstPending(next) == FirstPending(mem) + n;
    }
  }

  lemma AcknowledgeKeepsInv(c: Config, s: System, outcome: I.Outcome, s': System)
    requires Inv(c, s) && Next(c, s, Acknowledge(outcome), s')
    ensures Inv(c, s')
  {
    var mem := s.power.mem;
    AcknowledgedIsStored(c, s, outcome);
    AcknowledgedHealthy(mem, s.power.limits.batchSize);
    AcknowledgedExtends(mem, s.power.limits.batchSize);
    AcknowledgeAccounted(s.server.db.measurements, c.device, mem, s.power.limits.batchSize);
    var next := Acknowledged(mem, s.power.limits.batchSize);
    assert Agrees(s.posted, next);
    assert StateOk(c, s', next);
  }

  lemma ServeKeepsState(c: Config, s: System, server: T.State, x: State)
    requires StateOk(c, s, x) && s.server.db.measurements <= server.db.measurements
    ensures StateOk(c, s.(server := server), x)
  {
    var ms, ms' := s.server.db.measurements, server.db.measurements;
    assert ms' == ms + ms'[|ms|..];
    AccountedGrows(ms, ms'[|ms|..], c.device, x);
  }

  lemma ServeKeepsInv(c: Config, s: System, inner: T.Step, s': System)
    requires Inv(c, s) && T.Next(s.server, inner, s'.server)
    requires inner.Begin? && inner.req.device == c.device ==> inner.req in s.sent
    requires s' == s.(server := s'.server)
    ensures Inv(c, s')
  {
    T.StepKeepsInv(s.server, inner, s'.server);
    T.OnlyCommitWrites(s.server, inner, s'.server);
    forall x | StateOk(c, s, x) ensures StateOk(c, s', x) {
      ServeKeepsState(c, s, s'.server, x);
    }
  }

  lemma DefaultAccounted(ms: seq<I.MeasurementRow>, device: string)
    ensures Accounted(ms, device, DEFAULT_STATE)
  {
    assert AccountedBy(ms, device, DEFAULT_STATE, {});
  }

  lemma BootKeepsInv(c: Config, s: System, limits: Limits, s': System)
    requires Inv(c, s) && Next(c, s, Boot(limits), s')
    ensures Inv(c, s')
  {
    if Load(s.disk).Fresh? {
      DefaultAccounted(s.server.db.measurements, c.device);
    }
  }

  lemma StepKeepsInv(c: Config, s: System, step: Step, s': System)
    requires Inv(c, s) && Next(c, s, step, s')
    ensures Inv(c, s')
  {
    match step {
      case Measure(_, _) => MeasureKeepsInv(c, s, step, s');
      case SaveOperation(ok) => SaveKeepsInv(c, s, ok, s');
      case Post => PostKeepsInv(c, s, s');
      case Failure(status) => FailureKeepsInv(c, s, status, s');
      case Acknowledge(outcome) => AcknowledgeKeepsInv(c, s, outcome, s');
      case PowerLoss =>
      case Boot(limits) => BootKeepsInv(c, s, limits, s');
      case Serve(inner) => ServeKeepsInv(c, s, inner, s');
    }
  }

  lemma {:induction false} RunInv(c: Config, states: seq<System>, steps: seq<Step>, n: nat)
    requires IsRun(c, states, steps) && n < |states|
    ensures Inv(c, states[n])
  {
    if n == 0 {
      T.InitialInv();
    } else {
      RunInv(c, states, steps, n - 1);
      assert Next(c, states[n - 1], steps[n - 1], states[n]);
      StepKeepsInv(c, states[n - 1], steps[n - 1], states[n]);
    }
  }

  // ---- what is never forgotten ----

  /** The state the device works with, or would work with after its next boot. */
  predicate Current(s: System, x: State) {
    if s.power.On? then x == s.power.mem else Load(s.disk) == Loaded(x)
  }

  /** Whatever was posted under a sequence `y` queues is the reading `y` queues there. */
  ghost predicate PostedFrom(posted: map<int, Reading>, y: State) {
    forall k :: k in posted && Queued(y, k).Some? ==> Queued(y, k) == Some(posted[k])
  }

  /** Every state the device holds, is saving, or could load extends `y`. */
  ghost predicate Keeps(s: System, y: State) {
    && (s.power.On? ==>
          Extends(y, s.power.mem) && (s.power.activity.Saving? ==> Extends(y, s.power.activity.next)))
    && (match Load(s.disk)
        case Loaded(x) => Extends(y, x)
        case Fresh => Extends(y, DEFAULT_STATE)
        case FailClosed => true)
    && PostedFrom(s.posted, y)
  }

  lemma ExtendsThrough(a: State, b: State, c: State)
    requires Extends(a, b) && Extends(b, c)
    ensures Extends(a, c)
  {
    forall k | k < a.nextSequence ensures Queued(c, k) in {None, Queued(a, k)} {
      assert Queued(b, k) in {None, Queued(a, k)};
    }
  }

  lemma CurrentKeeps(c: Config, s: System, y: State)
    requires Inv(c, s) && Current(s, y)
    ensures Keeps(s, y)
  {
    ExtendsSelf(y);
    assert Agrees(s.posted, y);
  }

  lemma StartedSaveKeeps(c: Config, s: System, step: Step, s': System, y: State)
    requires Inv(c, s) && Next(c, s, step, s') && Keeps(s, y)
    requires step.Measure? || step.Failure? || step.Acknowledge?
    ensures Keeps(s', y)
  {
    var mem, next := s.power.mem, s'.power.activity.next;
    match step {
      case Measure(pm25, observedAt) =>
        EnqueuedExtends(mem, Reading(mem.nextSequence, observedAt, pm25), s.power.limits.maxPending);
      case Failure(status) =>
        ExtendsSelf(mem);
        SameQueueExtends(next, mem);
        assert Extends(mem, next);
      case Acknowledge(outcome) =>
        AcknowledgedIsStored(c, s, outcome);
        AcknowledgedExtends(mem, s.power.limits.batchSize);
    }
    ExtendsThrough(y, mem, next);
  }

  lemma SavingKeeps(c: Config, s: System, ok: bool, s': System, y: State)
    requires Inv(c, s) && Next(c, s, SaveOperation(ok), s') && Keeps(s, y)
    ensures Keeps(s', y)
  {
    var next, pc := s.power.activity.next, s.power.activity.pc;
    HealthyReadable(next);
    OperationLoads(s.disk, next, pc, ok, c.clobbers);
  }

  lemma PostingKeeps(c: Config, s: System, s': System, y: State)
    requires Inv(c, s) && Next(c, s, Post, s') && Keeps(s, y)
    ensures Keeps(s', y)
  {
    PostedEntries(s.posted, s.power.mem, s.power.limits.batchSize);
    forall k | k in s'.posted && Queued(y, k).Some? ensures Queued(y, k) == Some(s'.posted[k]) {
      if k !in s.posted {
        assert Queued(s.power.mem, k) in {None, Queued(y, k)};
      }
    }
  }

  lemma StepKeeps(c: Config, s: System, step: Step, s': System, y: State)
    requires Inv(c, s) && Next(c, s, step, s') && Keeps(s, y)
    ensures Keeps(s', y)
  {
    match step {
      case SaveOperation(ok) => SavingKeeps(c, s, ok, s', y);
      case Post => PostingKeeps(c, s, s', y);
      case PowerLoss =>
      case Boot(_) =>
      case Serve(_) =>
      case _ => StartedSaveKeeps(c, s, step, s', y);
    }
  }

  lemma RunStepKeeps(c: Config, states: seq<System>, steps: seq<Step>, n: nat, y: State)
    requires IsRun(c, states, steps) && n < |steps| && Keeps(states[n], y)
    ensures Keeps(states[n + 1], y)
  {
    RunInv(c, states, steps, n);
    StepKeeps(c, states[n], steps[n], states[n + 1], y);
  }

  lemma {:induction false} RunKeeps(c: Config, states: seq<System>, steps: seq<Step>, m: nat, n: nat, y: State)
    requires IsRun(c, states, steps) && m <= n < |states| && Current(states[m], y)
    ensures Keeps(states[n], y)
    decreases n
  {
    if m == n {
      RunInv(c, states, steps, n);
      CurrentKeeps(c, states[n], y);
    } else {
      RunKeeps(c, states, steps, m, n - 1, y);
      RunStepKeeps(c, states, steps, n - 1, y);
    }
  }

  /** The reading itself is stored, under its own sequence. */
  ghost predicate StoredAs(ms: seq<I.MeasurementRow>, device: string, r: Reading) {
    r.sequence >= 0 && exists i :: 0 <= i < |ms| && ms[i].device == device && ms[i].reading == Input(r)
  }

  lemma BatchReadings(c: Config, posted: map<int, Reading>, req: I.Request, reading: I.ReadingInput)
    requires SentOk(posted, c.device, req) && reading in req.body.readings
    ensures IsPosted(posted, reading.sequence, reading)
  {
    var first: nat, last: nat :| IsBatch(posted, c.device, req, first, last);
    var j :| 0 <= j < |req.body.readings| && req.body.readings[j] == reading;
    assert IsPosted(posted, first + j, req.body.readings[j]);
  }

  /** A stored row of the device carries a reading that was posted under its sequence. */
  lemma RowWasPosted(c: Config, s: System, m: I.MeasurementRow)
    requires Inv(c, s) && m in s.server.db.measurements && m.device == c.device
    ensures IsPosted(s.posted, m.reading.sequence, m.reading)
  {
    assert I.HasOwner(s.server.db, m);
    var row :| row in s.server.db.requests && I.OwnedBy(m, row);
    var req := I.Request(row.device, row.key, row.body);
    assert req in s.server.begun && SentOk(s.posted, c.device, req);
    BatchReadings(c, s.posted, req, m.reading);
  }

  /** What is stored under a sequence once queued is the reading that was queued. */
  lemma StoredAsKept(c: Config, s: System, y: State, k: nat)
    requires Inv(c, s) && Keeps(s, y) && Queued(y, k).Some? && I.Has(s.server.db.measurements, c.device, k)
    ensures StoredAs(s.server.db.measurements, c.device, Queued(y, k).value)
  {
    var ms := s.server.db.measurements;
    var j :| 0 <= j < |ms| && I.SameSlot(ms[j], c.device, k);
    RowWasPosted(c, s, ms[j]);
  }

  /** A reading `y` queued is now queued as it was, counted as dropped, or stored as it was. */
  lemma Remembered(c: Config, s: System, y: State, x: State, k: int) returns (dropped: set<int>)
    requires Inv(c, s) && Keeps(s, y) && Healthy(y) && Current(s, x) && Queued(y, k).Some?
    ensures |dropped| == x.dropped && forall d :: d in dropped ==> 1 <= d < FirstPending(x)
    ensures k < x.nextSequence && Queued(x, k) in {None, Queued(y, k)}
    ensures Queued(x, k).None? ==>
              && k < FirstPending(x)
              && (StoredAs(s.server.db.measurements, c.device, Queued(y, k).value) || k in dropped)
  {
    assert StateOk(c, s, x) && Extends(y, x);
    dropped :| AccountedBy(s.server.db.measurements, c.device, x, dropped);
    if Queued(x, k).None? && k !in dropped {
      assert 1 <= k < FirstPending(x);
      StoredAsKept(c, s, y, k);
    }
  }

  // ---- main results, over every run ----

  /** Some state the device had by then, in memory or to boot from, had already numbered `k`. */
  ghost predicate Assigned(states: seq<System>, n: nat, k: int)
    requires n < |states|
  {
    exists m, y :: 0 <= m <= n && Current(states[m], y) && 1 <= k < y.nextSequence
  }

  ghost predicate IsQueued(x: State, k: int) {
    exists i :: 0 <= i < |x.pending| && x.pending[i].sequence == k
  }

  /** The next sequence never falls, across reboots and whatever became of the saves in between. */
  lemma NumberingNeverFalls(c: Config, states: seq<System>, steps: seq<Step>, m: nat, n: nat, y: State, x: State)
    requires IsRun(c, states, steps) && m <= n < |states| && Current(states[m], y) && Current(states[n], x)
    ensures y.nextSequence <= x.nextSequence
  {
    RunKeeps(c, states, steps, m, n, y);
  }

  /**
   No silent loss: every sequence ever assigned, up to now or by any state the device had before, is still
   queued, stored by the service, or one of exactly `dropped` readings dropped to make room.
   */
  lemma NoSilentLoss(c: Config, states: seq<System>, steps: seq<Step>, n: nat, x: State) returns (dropped: set<int>)
    requires IsRun(c, states, steps) && n < |states| && Current(states[n], x)
    ensures |dropped| == x.dropped
    ensures forall k :: k in dropped ==> 1 <= k < FirstPending(x)
    ensures forall k: int :: (1 <= k < x.nextSequence || Assigned(states, n, k)) ==>
              IsQueued(x, k) || I.Has(states[n].server.db.measurements, c.device, k) || k in dropped
  {
    RunInv(c, states, steps, n);
    dropped :| AccountedBy(states[n].server.db.measurements, c.device, x, dropped);
    forall k: int | 1 <= k < x.nextSequence || Assigned(states, n, k)
      ensures IsQueued(x, k) || I.Has(states[n].server.db.measurements, c.device, k) || k in dropped
    {
      if Assigned(states, n, k) {
        var m, y :| 0 <= m <= n && Current(states[m], y) && 1 <= k < y.nextSequence;
        NumberingNeverFalls(c, states, steps, m, n, y, x);
      }
      if FirstPending(x) <= k {
        assert x.pending[k - FirstPending(x)].sequence == k;
      }
    }
  }

  /**
   A reading once queued is never forgotten or replaced: at any later time, after any reboots, its sequence is
   not assigned again, and it is still queued as it was, stored as it was, or counted as dropped.
   */
  lemma NeverForgotten(c: Config, states: seq<System>, steps: seq<Step>, m: nat, n: nat, y: State, x: State, k: int)
    returns (dropped: set<int>)
    requires IsRun(c, states, steps) && m <= n < |states| && Current(states[m], y) && Current(states[n], x)
    requires Queued(y, k).Some?
    ensures |dropped| == x.dropped && forall d :: d in dropped ==> 1 <= d < FirstPending(x)
    ensures k < x.nextSequence && Queued(x, k) in {None, Queued(y, k)}
    ensures Queued(x, k).None? ==>
              && k < FirstPending(x)
              && (StoredAs(states[n].server.db.measurements, c.device, Queued(y, k).value) || k in dropped)
    ensures !Load(states[n].disk).Fresh?
  {
    RunInv(c, states, steps, m);
    RunInv(c, states, steps, n);
    RunKeeps(c, states, steps, m, n, y);
    assert StateOk(c, states[m], y);
    dropped := Remembered(c, states[n], y, x, k);
  }

  lemma SubsetSize(a: set<int>, b: set<int>)
    requires a <= b
    ensures |a| <= |b|
  {
    assert b == a + (b - a);
  }

  /** The readings assigned, not stored and not queued any more never outnumber the drop counter. */
  lemma LossIsCounted(c: Config, states: seq<System>, steps: seq<Step>, n: nat, x: State, lost: set<int>)
    requires IsRun(c, states, steps) && n < |states| && Current(states[n], x)
    requires forall k :: k in lost ==>
               && Assigned(states, n, k) && 1 <= k
               && !I.Has(states[n].server.db.measurements, c.device, k) && !IsQueued(x, k)
    ensures |lost| <= x.dropped
  {
    var dropped := NoSilentLoss(c, states, steps, n, x);
    forall k | k in lost ensures k in dropped {
      assert !I.Has(states[n].server.db.measurements, c.device, k);
    }
    SubsetSize(lost, dropped);
  }

  lemma OneRowPerSlot(ms: seq<I.MeasurementRow>, i: nat)
    requires I.UniqueSlots(ms) && i < |ms|
    ensures forall j :: 0 <= j < |ms| && j != i ==> !I.SameSlot(ms[j], ms[i].device, ms[i].reading.sequence)
  {
  }

  /** Each of the device's sequences is stored at most once, and as the one reading ever posted under it. */
  lemma StoredOnceAsPosted(c: Config, states: seq<System>, steps: seq<Step>, n: nat, i: nat)
    requires IsRun(c, states, steps) && n < |states|
    requires var ms := states[n].server.db.measurements; i < |ms| && ms[i].device == c.device
    ensures var ms := states[n].server.db.measurements;
            var k := ms[i].reading.sequence;
            && k in states[n].posted && states[n].posted[k].sequence == k
            && ms[i].reading == Input(states[n].posted[k])
            && forall j :: 0 <= j < |ms| && j != i ==> !I.SameSlot(ms[j], c.device, k)
  {
    RunInv(c, states, steps, n);
    RowWasPosted(c, states[n], states[n].server.db.measurements[i]);
    OneRowPerSlot(states[n].server.db.measurements, i);
  }

  lemma SameKey(c: Config, posted: map<int, Reading>, a: I.Request, b: I.Request)
    requires SentOk(posted, c.device, a) && SentOk(posted, c.device, b) && a.key == b.key
    ensures a == b
  {
    var f: nat, l: nat :| IsBatch(posted, c.device, a, f, l);
    var f': nat, l': nat :| IsBatch(posted, c.device, b, f', l');
    KeyInjective("myaqi-batch-" + c.device, f, l, f', l');
    forall i | 0 <= i < |a.body.readings| ensures a.body.readings[i] == b.body.readings[i] {
      assert IsPosted(posted, f + i, a.body.readings[i]) && IsPosted(posted, f + i, b.body.readings[i]);
    }
    assert a.body.readings == b.body.readings;
  }

  /** Two posts under one idempotency key, before or after any number of reboots, carry the same body. */
  lemma SameKeySameBody(c: Config, states: seq<System>, steps: seq<Step>, n: nat, a: I.Request, b: I.Request)
    requires IsRun(c, states, steps) && n < |states|
    requires a in states[n].sent && b in states[n].sent && a.key == b.key
    ensures a == b
  {
    RunInv(c, states, steps, n);
    SameKey(c, states[n].posted, a, b);
  }

  /** No genuine positive reply is ever rejected: it always covers the very batch the device is waiting for. */
  lemma RepliesCover(c: Config, states: seq<System>, steps: seq<Step>, n: nat, outcome: I.Outcome)
    requires IsRun(c, states, steps) && n < |states|
    requires states[n].power.On? && states[n].power.activity.Waiting?
    requires outcome.Accepted? || outcome.Replayed?
    requires (states[n].power.activity.req, outcome) in states[n].server.responses
    ensures outcome.ack.accepted + outcome.ack.duplicates == |HeadBatch(states[n])|
  {
    RunInv(c, states, steps, n);
    AcknowledgedIsStored(c, states[n], outcome);
  }

  /** The device's traffic is never answered with the idempotency conflict. */
  lemma NeverConflicts(c: Config, states: seq<System>, steps: seq<Step>, n: nat, req: I.Request)
    requires IsRun(c, states, steps) && n < |states| && req.device == c.device
    ensures (req, I.Conflict) !in states[n].server.responses
  {
    RunInv(c, states, steps, n);
    var s := states[n];
    if (req, I.Conflict) in s.server.responses {
      assert T.ResponseOk(s.server, (req, I.Conflict).0, (req, I.Conflict).1);
      var row :| row in s.server.db.requests && I.Matches(row, req.device, req.key) && row.body != req.body;
      SameKey(c, s.posted, req, I.Request(row.device, row.key, row.body));
      assert false;
    }
  }

  /**
   Once anything was numbered or posted, the device never starts over from sequence 1: what it could load numbers
   on from there, or it refuses to start.
   */
  lemma NeverStartsOver(c: Config, states: seq<System>, steps: seq<Step>, m: nat, n: nat, y: State)
    requires IsRun(c, states, steps) && m <= n < |states|
    requires states[n].posted != map[] || (Current(states[m], y) && y.nextSequence > 1)
    ensures !Load(states[n].disk).Fresh?
    ensures Load(states[n].disk).Loaded? ==>
              && (forall k :: k in states[n].posted ==> k < Load(states[n].disk).state.nextSequence)
              && (Current(states[m], y) ==> y.nextSequence <= Load(states[n].disk).state.nextSequence)
  {
    RunInv(c, states, steps, n);
    if Current(states[m], y) {
      RunKeeps(c, states, steps, m, n, y);
    }
  }
}
