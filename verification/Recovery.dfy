/**
 Recovery: whatever has happened, a device that can still start, or is running, can get every queued reading
 stored and acknowledged.  From any reachable state there is a continuation of the run that does it.
 */
module Recovery {
  import opened Common
  import opened DeviceState
  import opened StateStore
  import opened UploadQueue
  import opened Wire
  import opened EndToEnd
  import opened ClientRuns
  import DeviceClient
  import I = Ingestion
  import T = IngestionTransactions

  // ---- the service can answer ----

  /** A step of a transaction that is already open. */
  lemma Served(c: Config, s: System, t: System, inner: T.Step, server: T.State)
    requires Reaches(c, s, t) && T.Next(t.server, inner, server) && (inner.Begin? ==> inner.req in t.sent)
    ensures Reaches(c, s, t.(server := server))
  {
    StepReaches(c, s, t, EndToEnd.Serve(inner), t.(server := server));
  }

  /** Every open transaction can be rolled back. */
  lemma {:induction false} AllAborted(c: Config, s: System)
    ensures Reaches(c, s, s.(server := s.server.(txs := map[])))
    decreases |s.server.txs|
  {
    ReachesSelf(c, s);
    var txs := s.server.txs;
    if txs == map[] {
    } else {
      var t :| t in txs;
      var rest := s.server.(txs := txs - {t});
      Served(c, s, s, T.Abort(t), rest);
      assert rest.txs.Keys == txs.Keys - {t};
      AllAborted(c, s.(server := rest));
      ReachesThrough(c, s, s.(server := rest), s.(server := s.server.(txs := map[])));
    }
  }

  lemma {:induction false} Unused(ids: set<nat>) returns (id: nat)
    ensures forall used :: used in ids ==> used < id
    decreases |ids|
  {
    if ids == {} {
      id := 0;
    } else {
      var some: nat :| some in ids;
      var others := Unused(ids - {some});
      id := Max(others, some + 1);
      forall used | used in ids ensures used < id {
        assert used != some ==> used in ids - {some};
      }
    }
  }

  /** The only open transaction, with its key reserved. */
  predicate HoldsAlone(server: T.State, t: nat, req: I.Request) {
    && server.txs.Keys == {t} && server.txs[t].req == req
    && server.txs[t].phase.Holding? && !server.txs[t].phase.staged
    && server.txs[t].phase.done <= |req.body.readings|
  }

  /** A transaction that is alone can insert all its readings. */
  lemma {:induction false} AllInserted(c: Config, s: System, u: System, t: nat, req: I.Request) returns (u': System)
    requires Reaches(c, s, u) && HoldsAlone(u.server, t, req)
    ensures Reaches(c, s, u') && u' == u.(server := u'.server)
    ensures HoldsAlone(u'.server, t, req) && u'.server.txs[t].phase.done == |req.body.readings|
    decreases |req.body.readings| - u.server.txs[t].phase.done
  {
    var tx := u.server.txs[t];
    if tx.phase.done == |req.body.readings| {
      u' := u;
    } else {
      var r := req.body.readings[tx.phase.done];
      var rows := tx.phase.rows;
      var rows' := if I.Has(u.server.db.measurements + rows, req.device, r.sequence) then rows
                   else rows + [I.MeasurementRow(req.device, tx.phase.id, r)];
      var next := T.WithPhase(u.server, t, tx.phase.(done := tx.phase.done + 1, rows := rows'));
      Served(c, s, u, T.Insert(t), next);
      u' := AllInserted(c, s, u.(server := next), t, req);
    }
  }

  ghost predicate Answered(server: T.State, req: I.Request) {
    exists outcome: I.Outcome :: (outcome.Accepted? || outcome.Replayed?) && (req, outcome) in server.responses
  }

  /** A request whose key is new is accepted. */
  lemma AnsweredFresh(c: Config, s: System, u: System, t: nat, req: I.Request) returns (u': System)
    requires Reaches(c, s, u) && u.server.txs.Keys == {t}
    requires u.server.txs[t].req == req && u.server.txs[t].phase.Started?
    requires I.Find(u.server.db.requests, req.device, req.key).None?
    ensures Reaches(c, s, u') && u' == u.(server := u'.server) && Answered(u'.server, req)
  {
    var id := Unused(u.server.ids);
    var held := T.WithPhase(u.server, t, T.Holding(id, 0, [], false)).(ids := u.server.ids + {id});
    Served(c, s, u, T.Reserve(t, id), held);
    u' := AllInserted(c, s, u.(server := held), t, req);
    var staged := T.WithPhase(u'.server, t, u'.server.txs[t].phase.(staged := true));
    Served(c, s, u', T.Stage(t), staged);
    var tx := staged.txs[t];
    var outcome := I.Accepted(I.AckFor(tx.phase.id, req, |tx.phase.rows|));
    var done := T.Finish(staged, t, outcome)
                .(db := I.Committed(staged.db, tx.phase.id, req, tx.phase.rows), last := T.LastAfter(staged.last, tx),
                  log := staged.log + [(tx.phase.id, req)]);
    Served(c, s, u'.(server := staged), T.Commit(t), done);
    u' := u.(server := done);
    assert (req, outcome) in done.responses;
  }

  /** A request whose key is stored with its own answer gets that answer again. */
  lemma AnsweredAgain(c: Config, s: System, u: System, t: nat, req: I.Request, row: I.RequestRow) returns (u': System)
    requires Reaches(c, s, u) && u.server.txs.Keys == {t}
    requires u.server.txs[t].req == req && u.server.txs[t].phase.Started?
    requires I.Find(u.server.db.requests, req.device, req.key) == Some(row)
    requires row.body == req.body && row.response.Some?
    ensures Reaches(c, s, u') && u' == u.(server := u'.server) && Answered(u'.server, req)
  {
    var ack := row.response.value;
    var answering := T.WithPhase(u.server, t, T.Answering(ack));
    Served(c, s, u, T.Reserve(t, 0), answering);
    var done := T.Finish(answering, t, I.Replayed(ack)).(last := T.LastAfter(answering.last, answering.txs[t]));
    Served(c, s, u.(server := answering), T.Commit(t), done);
    u' := u.(server := done);
    assert (req, I.Replayed(ack)) in done.responses;
  }

  /** Under a key the device has posted, only that very request can be stored, and it has its answer. */
  lemma StoredUnderKey(c: Config, s: System, req: I.Request, row: I.RequestRow)
    requires Inv(c, s) && req in s.sent && row in s.server.db.requests && I.Matches(row, req.device, req.key)
    ensures row.body == req.body && row.response.Some?
  {
    var stored := I.Request(row.device, row.key, row.body);
    assert SentOk(s.posted, c.device, req);
    assert stored in s.server.begun && stored in s.sent;
    SameKey(c, s.posted, req, stored);
    assert I.RequestOk(s.server.db, row);
  }

  lemma PostedNotEmpty(posted: map<int, Reading>, device: string, req: I.Request)
    requires SentOk(posted, device, req)
    ensures |req.body.readings| > 0
  {
    var first: nat, last: nat :| IsBatch(posted, device, req, first, last);
  }

  /** Whatever state the service is in, it can come to answer any request the device has posted. */
  lemma ServiceAnswers(c: Config, s: System, req: I.Request) returns (u: System)
    requires Reachable(c, s) && req in s.sent
    ensures Reaches(c, s, u) && u == s.(server := u.server) && Answered(u.server, req)
  {
    ReachableInv(c, s);
    PostedNotEmpty(s.posted, c.device, req);
    AllAborted(c, s);
    var quiet := s.server.(txs := map[]);
    var begun := quiet.(txs := map[0 := T.Tx(req, T.LastOf(quiet.last, req.device), T.Started)],
                        begun := quiet.begun + {req});
    Served(c, s, s.(server := quiet), T.Begin(0, req), begun);
    var found := I.Find(s.server.db.requests, req.device, req.key);
    if found.None? {
      u := AnsweredFresh(c, s, s.(server := begun), 0, req);
    } else {
      StoredUnderKey(c, s, req, found.value);
      u := AnsweredAgain(c, s, s.(server := begun), 0, req, found.value);
    }
  }

  // ---- the device can come to rest ----

  /** The state the device has, or would have after its next boot. */
  function Present(s: System): State {
    if s.power.On? then s.power.mem
    else match Load(s.disk) case Loaded(x) => x case _ => DEFAULT_STATE
  }

  predicate SameQueue(a: State, b: State) {
    a.pending == b.pending && a.nextSequence == b.nextSequence && a.dropped == b.dropped
  }

  function StepsLeft(pc: SavePc): nat {
    match pc
    case Opening => 7
    case Writing => 6
    case Removing => 5
    case Retiring => 4
    case Promoting => 3
    case Restoring => 2
    case Saved => 0
    case Failed => 0
  }

  /** A save can fail from any point on, and leaves the queue as it is in memory. */
  lemma {:induction false} SaveAbandoned(c: Config, s: System, u: System) returns (u': System)
    requires Reaches(c, s, u) && Inv(c, u) && u.power.On? && u.power.activity.Saving?
    ensures Reaches(c, s, u') && u' == u.(disk := u'.disk, power := u'.power)
    ensures IdleOn(u') && SameQueue(u'.power.mem, u.power.mem)
    decreases StepsLeft(u.power.activity.pc)
  {
    var Saving(next, pc, purpose) := u.power.activity;
    var (disk, pc') := SaveStep(u.disk, pc, StateDocument(next), false, c.clobbers);
    u' := u.(disk := disk, power := AfterOperation(u.power.mem, next, pc', purpose, u.power.limits));
    StepReaches(c, s, u, SaveOperation(false), u');
    if pc'.Failed? {
    } else {
      SaveKeepsInv(c, u, false, u');
      u' := SaveAbandoned(c, s, u');
    }
  }

  lemma ComesToRest(c: Config, s: System, limits: Limits) returns (u: System)
    requires Reachable(c, s) && ValidLimits(limits) && (s.power.On? || !Load(s.disk).FailClosed?)
    ensures Reaches(c, s, u) && u == s.(disk := u.disk, power := u.power)
    ensures IdleOn(u) && SameQueue(u.power.mem, Present(s))
  {
    ReachesSelf(c, s);
    ReachableInv(c, s);
    if s.power.Off? {
      u := s.(power := On(Present(s), Idle, limits));
      StepReaches(c, s, s, Boot(limits), u);
    } else {
      match s.power.activity {
        case Idle => u := s;
        case Saving(_, _, _) => u := SaveAbandoned(c, s, s);
        case Waiting(_) =>
          u := StartSave(s, FailureRecorded(s.power.mem, None), ForFailure);
          StepReaches(c, s, s, Failure(None), u);
          FailureKeepsInv(c, s, None, u);
          u := SaveAbandoned(c, s, u);
      }
    }
  }

  // ---- one batch after the other ----

  /** A save in which every operation works. */
  lemma Completed(c: Config, s: System, next: State) returns (u: System)
    requires s.power.On? && Readable(next)
    ensures Reaches(c, StartSave(s, next, ForAcknowledgement), u)
    ensures u == s.(disk := u.disk, power := On(next, Idle, s.power.limits))
  {
    assert ALL_WORK[2] != RESTORING[2];
    CompleteSave(s.disk, next, c.clobbers);
    WholeSave(c, StartSave(s, next, ForAcknowledgement), next, ForAcknowledgement, ALL_WORK);
    u := s.(disk := SavedDisk(s.disk, next), power := On(next, Idle, s.power.limits));
  }

  /** The service's answer makes a reply that covers the batch, all of which is stored. */
  lemma AnswerCovers(c: Config, s: System, req: I.Request) returns (reply: DeviceClient.Reply)
    requires Inv(c, s) && s.power.On? && s.power.activity == Waiting(req) && Answered(s.server, req)
    ensures Postable(HeadBatch(s)) && I.AllStored(s.server.db.measurements, c.device, Inputs(HeadBatch(s)))
    ensures DeviceClient.Covers(reply, |HeadBatch(s)|) && Genuine(s, req, |HeadBatch(s)|, reply)
  {
    var outcome: I.Outcome :| (outcome.Accepted? || outcome.Replayed?) && (req, outcome) in s.server.responses;
    AcknowledgedIsStored(c, s, outcome);
    reply := DeviceClient.Response(202, Some((outcome.ack.accepted, outcome.ack.duplicates)));
    assert Answers(s, req, reply, outcome);
  }

  /** The reply arrives and the save completes. */
  lemma Acknowledgement(c: Config, s: System, answered: System, req: I.Request) returns (u: System)
    requires Reaches(c, s, answered) && Reachable(c, answered)
    requires answered.power.On? && answered.power.activity == Waiting(req) && Answered(answered.server, req)
    ensures Postable(HeadBatch(answered))
    ensures Reaches(c, s, u) && u == answered.(disk := u.disk, power := u.power)
    ensures var limits := answered.power.limits;
            u.power == On(Acknowledged(answered.power.mem, limits.batchSize), Idle, limits)
    ensures I.AllStored(u.server.db.measurements, c.device, Inputs(HeadBatch(answered)))
  {
    ReachableInv(c, answered);
    var reply := AnswerCovers(c, answered, req);
    ReplyIsRun(c, answered, reply);
    var limits := answered.power.limits;
    var next := Acknowledged(answered.power.mem, limits.batchSize);
    u := Completed(c, answered, next);
    ReachesThrough(c, answered, StartSave(answered, next, ForAcknowledgement), u);
    ReachesThrough(c, s, answered, u);
  }

  /** A batch can be posted, answered and acknowledged. */
  lemma Round(c: Config, s: System) returns (u: System)
    requires Reachable(c, s) && IdleOn(s) && s.power.mem.pending != []
    ensures Reaches(c, s, u) && IdleOn(u) && s.power.limits == u.power.limits && Postable(HeadBatch(s))
    ensures u.power.mem == Acknowledged(s.power.mem, s.power.limits.batchSize)
    ensures I.AllStored(u.server.db.measurements, c.device, Inputs(HeadBatch(s)))
  {
    PostIsRun(c, s);
    var batch := HeadBatch(s);
    var req := BatchRequest(c.device, batch);
    var waiting := s.(power := s.power.(activity := Waiting(req)), sent := s.sent + {req},
                      posted := s.posted + Entries(batch));
    StaysReachable(c, s, waiting);
    var answered := ServiceAnswers(c, waiting, req);
    StaysReachable(c, waiting, answered);
    ReachesThrough(c, s, waiting, answered);
    u := Acknowledgement(c, s, answered, req);
  }

  /** What is stored stays stored. */
  lemma {:induction false} PathStores(c: Config, states: seq<System>, steps: seq<Step>, n: nat)
    requires Path(c, states, steps) && n < |states|
    ensures states[0].server.db.measurements <= states[n].server.db.measurements
  {
    if n == 0 {
    } else {
      PathStores(c, states, steps, n - 1);
      assert Next(c, states[n - 1], steps[n - 1], states[n]);
      if steps[n - 1].Serve? {
        T.OnlyCommitWrites(states[n - 1].server, steps[n - 1].step, states[n].server);
      }
    }
  }

  lemma StaysStored(c: Config, s: System, u: System)
    requires Reaches(c, s, u)
    ensures s.server.db.measurements <= u.server.db.measurements
  {
    var states, steps :| Path(c, states, steps) && states[0] == s && states[|states| - 1] == u;
    PathStores(c, states, steps, |steps|);
  }

  ghost predicate HasAll(ms: seq<I.MeasurementRow>, device: string, readings: seq<Reading>) {
    forall i :: 0 <= i < |readings| ==> readings[i].sequence >= 0 && I.Has(ms, device, readings[i].sequence)
  }

  /** The first batch stored, and the rest of the queue stored, make the whole queue stored. */
  lemma BatchAndRest(
    ms: seq<I.MeasurementRow>, added: seq<I.MeasurementRow>, device: string, s: State, batchSize: nat)
    requires Postable(Batch(s, batchSize)) && I.AllStored(ms, device, Inputs(Batch(s, batchSize)))
    requires HasAll(ms + added, device, s.pending[|Batch(s, batchSize)|..])
    ensures HasAll(ms + added, device, s.pending)
  {
    var batch := Batch(s, batchSize);
    forall i | 0 <= i < |s.pending|
      ensures s.pending[i].sequence >= 0 && I.Has(ms + added, device, s.pending[i].sequence)
    {
      if i < |batch| {
        assert Inputs(batch)[i] in Inputs(batch);
        I.HasAppend(ms, added, device, batch[i].sequence);
      } else {
        assert s.pending[|batch|..][i - |batch|] == s.pending[i];
      }
    }
  }

  lemma {:induction false} QueueDrains(c: Config, s: System) returns (u: System)
    requires Reachable(c, s) && IdleOn(s)
    ensures Reaches(c, s, u) && IdleOn(u) && u.power.mem.pending == []
    ensures u.power.mem.nextSequence == s.power.mem.nextSequence && u.power.mem.dropped == s.power.mem.dropped
    ensures HasAll(u.server.db.measurements, c.device, s.power.mem.pending)
    decreases |s.power.mem.pending|
  {
    if s.power.mem.pending == [] {
      ReachesSelf(c, s);
      u := s;
    } else {
      var after := Round(c, s);
      StaysReachable(c, s, after);
      assert HeadBatch(s) != [];
      u := QueueDrains(c, after);
      ReachesThrough(c, s, after, u);
      StaysStored(c, after, u);
      var ms, ms' := after.server.db.measurements, u.server.db.measurements;
      assert ms' == ms + ms'[|ms|..];
      BatchAndRest(ms, ms'[|ms|..], c.device, s.power.mem, s.power.limits.batchSize);
    }
  }

  // ---- main results ----

  lemma PresentKept(c: Config, s: System, u: System)
    requires Reachable(c, s) && Reaches(c, s, u) && Current(s, Present(s))
    ensures Inv(c, s) && Inv(c, u) && Keeps(u, Present(s))
  {
    var states, steps, m := RunThrough(c, s, u);
    RunKeeps(c, states, steps, m, |steps|, Present(s));
    RunInv(c, states, steps, m);
    RunInv(c, states, steps, |steps|);
  }

  lemma QueuedAt(y: State, i: nat)
    requires Healthy(y) && i < |y.pending|
    ensures y.pending[i].sequence >= 0 && Queued(y, y.pending[i].sequence) == Some(y.pending[i])
  {
  }

  /**
   Recovery: from every reachable state in which the device runs, or could start, there is a continuation after
   which its queue is empty, everything that was queued is stored as it was, and nothing more was dropped.
   */
  lemma EverythingCanBeDelivered(c: Config, s: System, limits: Limits) returns (u: System)
    requires Reachable(c, s) && ValidLimits(limits) && (s.power.On? || !Load(s.disk).FailClosed?)
    ensures Reaches(c, s, u) && IdleOn(u) && u.power.mem.pending == []
    ensures u.power.mem.nextSequence == Present(s).nextSequence && u.power.mem.dropped == Present(s).dropped
    ensures forall i :: 0 <= i < |Present(s).pending| ==>
              StoredAs(u.server.db.measurements, c.device, Present(s).pending[i])
  {
    var rest := ComesToRest(c, s, limits);
    StaysReachable(c, s, rest);
    u := QueueDrains(c, rest);
    ReachesThrough(c, s, rest, u);
    if Present(s).pending != [] {
      PresentKept(c, s, u);
    }
    forall i | 0 <= i < |Present(s).pending|
      ensures StoredAs(u.server.db.measurements, c.device, Present(s).pending[i])
    {
      QueuedAt(Present(s), i);
      StoredAsKept(c, u, Present(s), Present(s).pending[i].sequence);
    }
  }

  /** Otherwise there is none: a device that refuses to start is never on again. */
  lemma {:induction false} RefusesForEver(c: Config, states: seq<System>, steps: seq<Step>, n: nat)
    requires Path(c, states, steps) && n < |states|
    requires states[0].power.Off? && Load(states[0].disk).FailClosed?
    ensures states[n].power.Off? && states[n].disk == states[0].disk
  {
    if n == 0 {
    } else {
      RefusesForEver(c, states, steps, n - 1);
      assert Next(c, states[n - 1], steps[n - 1], states[n]);
    }
  }

  /** So recovery is possible exactly when the device runs or has a state to start from. */
  lemma RecoverableExactly(c: Config, s: System)
    requires Reachable(c, s)
    ensures (s.power.On? || !Load(s.disk).FailClosed?) ==>
              exists u :: Reaches(c, s, u) && IdleOn(u) && u.power.mem.pending == []
    ensures (exists u :: Reaches(c, s, u) && IdleOn(u)) ==> s.power.On? || !Load(s.disk).FailClosed?
  {
    if s.power.On? || !Load(s.disk).FailClosed? {
      var u := EverythingCanBeDelivered(c, s, Limits(1, 1));
    } else {
      forall u | Reaches(c, s, u) ensures u.power.Off? {
        var states, steps :| Path(c, states, steps) && states[0] == s && states[|states| - 1] == u;
        RefusesForEver(c, states, steps, |steps|);
      }
    }
  }
}
