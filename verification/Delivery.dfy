/**
 From the device's queue to the announced event: device, flash, network, service and outbox workers as one
 machine.  It runs the end-to-end machine and the transactional outbox side by side, sharing the service.
 */
module Delivery {
  import opened Common
  import opened DeviceState
  import opened StateStore
  import opened UploadQueue
  import opened Wire
  import C = ClientRuns
  import D = OutboxDraining
  import E = EndToEnd
  import I = Ingestion
  import O = Outbox
  import P = Pipeline
  import R = Recovery
  import T = IngestionTransactions
  import W = OutboxWorkers

  datatype System = System(device: E.System, outbox: W.State, ids: seq<O.EventId>)

  datatype Step = Device(step: E.Step) | Serve(inner: T.Step, id: O.EventId, now: int) | Work(work: W.Step)

  function Service(s: System): P.System {
    P.System(s.device.server, s.outbox, s.ids)
  }

  ghost predicate Next(c: E.Config, w: W.Settings, s: System, step: Step, s': System) {
    match step
    case Device(inner) =>
      && !inner.Serve? && E.Next(c, s.device, inner, s'.device)
      && s' == s.(device := s'.device)
    case Serve(inner, id, now) =>
      && E.Next(c, s.device, E.Serve(inner), s'.device)
      && P.Next(w, Service(s), P.Serve(inner, id, now), Service(s'))
    case Work(inner) =>
      && P.Next(w, Service(s), P.Work(inner), Service(s'))
      && s'.device == s.device
  }

  ghost predicate IsRun(c: E.Config, w: W.Settings, states: seq<System>, steps: seq<Step>) {
    && w.maxAttempts >= 1
    && |states| == |steps| + 1
    && E.Init(states[0].device) && Service(states[0]) == P.INITIAL
    && forall i :: 0 <= i < |steps| ==> Next(c, w, states[i], steps[i], states[i + 1])
  }

  // ---- invariant ----

  ghost predicate Inv(c: E.Config, w: W.Settings, s: System) {
    E.Inv(c, s.device) && P.Inv(w, Service(s))
  }

  /** Only the service's own steps change the service. */
  lemma DeviceSparesService(c: E.Config, s: E.System, step: E.Step, s': E.System)
    requires E.Next(c, s, step, s') && !step.Serve?
    ensures s'.server == s.server
  {
  }

  lemma DeviceKeepsInv(c: E.Config, w: W.Settings, s: System, step: Step, s': System)
    requires w.maxAttempts >= 1 && E.Inv(c, s.device) && Next(c, w, s, step, s')
    ensures E.Inv(c, s'.device)
  {
    match step {
      case Device(inner) => E.StepKeepsInv(c, s.device, inner, s'.device);
      case Serve(inner, _, _) => E.StepKeepsInv(c, s.device, E.Serve(inner), s'.device);
      case Work(_) =>
    }
  }

  lemma ServiceKeepsInv(c: E.Config, w: W.Settings, s: System, step: Step, s': System)
    requires w.maxAttempts >= 1 && P.Inv(w, Service(s)) && Next(c, w, s, step, s')
    ensures P.Inv(w, Service(s'))
  {
    match step {
      case Device(inner) => DeviceSparesService(c, s.device, inner, s'.device);
      case Serve(inner, id, now) => P.StepKeepsInv(w, Service(s), P.Serve(inner, id, now), Service(s'));
      case Work(inner) => P.StepKeepsInv(w, Service(s), P.Work(inner), Service(s'));
    }
  }

  lemma StepKeepsInv(c: E.Config, w: W.Settings, s: System, step: Step, s': System)
    requires w.maxAttempts >= 1 && Inv(c, w, s) && Next(c, w, s, step, s')
    ensures Inv(c, w, s')
  {
    DeviceKeepsInv(c, w, s, step, s');
    ServiceKeepsInv(c, w, s, step, s');
  }

  lemma InitialInv(c: E.Config, w: W.Settings, s: System)
    requires E.Init(s.device) && Service(s) == P.INITIAL
    ensures Inv(c, w, s)
  {
    T.InitialInv();
  }

  lemma {:induction false} RunInv(c: E.Config, w: W.Settings, states: seq<System>, steps: seq<Step>, n: nat)
    requires IsRun(c, w, states, steps) && n < |states|
    ensures Inv(c, w, states[n])
  {
    if n == 0 {
      InitialInv(c, w, states[0]);
    } else {
      RunInv(c, w, states, steps, n - 1);
      StepKeepsInv(c, w, states[n - 1], steps[n - 1], states[n]);
    }
  }

  // ---- what only grows ----

  ghost predicate Grows(s: System, s': System) {
    && s.ids <= s'.ids
    && s.device.server.db.requests <= s'.device.server.db.requests
    && s.device.server.db.measurements <= s'.device.server.db.measurements
  }

  lemma StepGrows(c: E.Config, w: W.Settings, s: System, step: Step, s': System)
    requires Next(c, w, s, step, s')
    ensures Grows(s, s')
  {
    match step {
      case Device(inner) => DeviceSparesService(c, s.device, inner, s'.device);
      case Serve(inner, id, now) =>
        P.StepGrows(w, Service(s), P.Serve(inner, id, now), Service(s'));
        T.OnlyCommitWrites(s.device.server, inner, s'.device.server);
      case Work(inner) => P.StepGrows(w, Service(s), P.Work(inner), Service(s'));
    }
  }

  lemma {:induction false} RunGrows(
    c: E.Config, w: W.Settings, states: seq<System>, steps: seq<Step>, m: nat, n: nat)
    requires IsRun(c, w, states, steps) && m <= n < |states|
    ensures Grows(states[m], states[n])
    decreases n
  {
    if m == n {
    } else {
      RunGrows(c, w, states, steps, m, n - 1);
      StepGrows(c, w, states[n - 1], steps[n - 1], states[n]);
    }
  }

  // ---- what the device remembers ----

  lemma StepKeeps(c: E.Config, w: W.Settings, s: System, step: Step, s': System, y: State)
    requires E.Inv(c, s.device) && Next(c, w, s, step, s') && E.Keeps(s.device, y)
    ensures E.Keeps(s'.device, y)
  {
    match step {
      case Device(inner) => E.StepKeeps(c, s.device, inner, s'.device, y);
      case Serve(inner, _, _) => E.StepKeeps(c, s.device, E.Serve(inner), s'.device, y);
      case Work(_) =>
    }
  }

  lemma RunStepKeeps(c: E.Config, w: W.Settings, states: seq<System>, steps: seq<Step>, n: nat, y: State)
    requires IsRun(c, w, states, steps) && n < |steps| && E.Keeps(states[n].device, y)
    ensures E.Keeps(states[n + 1].device, y)
  {
    RunInv(c, w, states, steps, n);
    StepKeeps(c, w, states[n], steps[n], states[n + 1], y);
  }

  lemma {:induction false} RunKeeps(
    c: E.Config, w: W.Settings, states: seq<System>, steps: seq<Step>, m: nat, n: nat, y: State)
    requires IsRun(c, w, states, steps) && m <= n < |states| && E.Current(states[m].device, y)
    ensures E.Keeps(states[n].device, y)
    decreases n
  {
    if m == n {
      RunInv(c, w, states, steps, n);
      E.CurrentKeeps(c, states[n].device, y);
    } else {
      RunKeeps(c, w, states, steps, m, n - 1, y);
      RunStepKeeps(c, w, states, steps, n - 1, y);
    }
  }

  // ---- announced readings ----

  /** The reading is stored as `m`, the request `row` stored it, and `id` is the one outbox row that announces it. */
  ghost predicate Announces(
    db: I.Db, rows: O.Rows, device: string, r: Reading, m: I.MeasurementRow, row: I.RequestRow, id: O.EventId)
  {
    && m in db.measurements && m.device == device && r.sequence >= 0 && m.reading == Input(r)
    && row in db.requests && I.OwnedBy(m, row)
    && P.OnlyRowOf(rows, id, row)
  }

  ghost predicate AnnouncedIn(db: I.Db, rows: O.Rows, device: string, r: Reading, id: O.EventId) {
    exists m, row :: Announces(db, rows, device, r, m, row, id)
  }

  ghost predicate Announced(s: System, device: string, r: Reading, id: O.EventId) {
    AnnouncedIn(s.device.server.db, s.outbox.rows, device, r, id)
  }

  /** The `i`-th request is announced by the `i`-th outbox row, and only by it. */
  lemma RowOfRequest(db: I.Db, rows: O.Rows, ids: seq<O.EventId>, i: nat, id: O.EventId)
    requires I.DbInv(db) && P.Announced(db.events, rows, ids) && i < |db.requests|
    ensures |ids| == |db.requests| && (P.OnlyRowOf(rows, id, db.requests[i]) <==> id == ids[i])
  {
    P.RowOfRequest(db, rows, ids, i);
    P.EventOfRequest(db, i);
  }

  lemma StoredIsAnnounced(db: I.Db, rows: O.Rows, ids: seq<O.EventId>, device: string, r: Reading)
    returns (id: O.EventId)
    requires I.DbInv(db) && P.Announced(db.events, rows, ids) && E.StoredAs(db.measurements, device, r)
    ensures AnnouncedIn(db, rows, device, r, id)
  {
    var j :| 0 <= j < |db.measurements| && db.measurements[j].device == device
             && db.measurements[j].reading == Input(r);
    var m := db.measurements[j];
    assert I.HasOwner(db, m);
    var row :| row in db.requests && I.OwnedBy(m, row);
    var i :| 0 <= i < |db.requests| && db.requests[i] == row;
    P.RowOfRequest(db, rows, ids, i);
    id := ids[i];
    assert Announces(db, rows, device, r, m, row, id);
  }

  /** As the tables grow, an announced reading stays announced by the same row. */
  lemma StaysAnnounced(
    db: I.Db, rows: O.Rows, ids: seq<O.EventId>, db': I.Db, rows': O.Rows, ids': seq<O.EventId>, device: string,
    r: Reading, id: O.EventId)
    requires I.DbInv(db) && P.Announced(db.events, rows, ids) && I.DbInv(db') && P.Announced(db'.events, rows', ids')
    requires ids <= ids' && db.requests <= db'.requests && db.measurements <= db'.measurements
    requires AnnouncedIn(db, rows, device, r, id)
    ensures AnnouncedIn(db', rows', device, r, id) && id in rows'
  {
    var m, row :| Announces(db, rows, device, r, m, row, id);
    var i :| 0 <= i < |db.requests| && db.requests[i] == row;
    RowOfRequest(db, rows, ids, i, id);
    RowOfRequest(db', rows', ids', i, id);
    assert db'.requests[i] == row && m in db'.measurements;
    assert Announces(db', rows', device, r, m, row, id);
  }

  /** What the run's invariant says about the service and its outbox. */
  lemma ServiceFacts(c: E.Config, w: W.Settings, states: seq<System>, steps: seq<Step>, n: nat)
    requires IsRun(c, w, states, steps) && n < |states|
    ensures var s := states[n];
            && I.DbInv(s.device.server.db)
            && P.Announced(s.device.server.db.events, s.outbox.rows, s.ids)
            && forall id :: id in s.outbox.rows && s.outbox.rows[id].status.Published? ==> id in s.outbox.delivered
  {
    RunInv(c, w, states, steps, n);
    var s := states[n];
    forall id | id in s.outbox.rows && s.outbox.rows[id].status.Published? ensures id in s.outbox.delivered {
      assert W.EventOk(w, s.outbox, id);
    }
  }

  /** What the device queued once is queued, dropped or stored, at any later moment of the run. */
  lemma Remembered(
    c: E.Config, w: W.Settings, states: seq<System>, steps: seq<Step>, m: nat, n: nat, y: State, x: State, k: int)
    returns (dropped: set<int>)
    requires IsRun(c, w, states, steps) && m <= n < |states|
    requires E.Current(states[m].device, y) && E.Current(states[n].device, x) && E.Queued(y, k).Some?
    ensures |dropped| == x.dropped && forall d :: d in dropped ==> 1 <= d < FirstPending(x)
    ensures || E.Queued(x, k) == E.Queued(y, k) || k in dropped
            || E.StoredAs(states[n].device.server.db.measurements, c.device, E.Queued(y, k).value)
  {
    RunInv(c, w, states, steps, m);
    RunInv(c, w, states, steps, n);
    RunKeeps(c, w, states, steps, m, n, y);
    assert E.StateOk(c, states[m].device, y);
    dropped := E.Remembered(c, states[n].device, y, x, k);
  }

  // ---- main results, over every run ----

  /** An announced reading stays announced by the same row for ever, which is published only once delivered. */
  lemma AnnouncedForEver(
    c: E.Config, w: W.Settings, states: seq<System>, steps: seq<Step>, m: nat, n: nat, r: Reading, id: O.EventId)
    requires IsRun(c, w, states, steps) && m <= n < |states| && Announced(states[m], c.device, r, id)
    ensures Announced(states[n], c.device, r, id)
    ensures id in states[n].outbox.rows
    ensures states[n].outbox.rows[id].status.Published? ==> id in states[n].outbox.delivered
  {
    var s, s' := states[m], states[n];
    ServiceFacts(c, w, states, steps, m);
    ServiceFacts(c, w, states, steps, n);
    RunGrows(c, w, states, steps, m, n);
    StaysAnnounced(s.device.server.db, s.outbox.rows, s.ids, s'.device.server.db, s'.outbox.rows, s'.ids,
                   c.device, r, id);
  }

  /** Everything the device has numbered below its queue, but for the counted drops, is stored and announced. */
  lemma AcknowledgedIsAnnounced(c: E.Config, w: W.Settings, states: seq<System>, steps: seq<Step>, n: nat, x: State)
    returns (dropped: set<int>)
    requires IsRun(c, w, states, steps) && n < |states| && E.Current(states[n].device, x)
    ensures |dropped| == x.dropped
    ensures forall k :: 1 <= k < FirstPending(x) && k !in dropped ==>
              exists r: Reading, id :: r.sequence == k && Announced(states[n], c.device, r, id)
  {
    RunInv(c, w, states, steps, n);
    var s := states[n];
    var ms := s.device.server.db.measurements;
    dropped :| E.AccountedBy(ms, c.device, x, dropped);
    forall k | 1 <= k < FirstPending(x) && k !in dropped
      ensures exists r: Reading, id :: r.sequence == k && Announced(s, c.device, r, id)
    {
      var j :| 0 <= j < |ms| && I.SameSlot(ms[j], c.device, k);
      E.RowWasPosted(c, s.device, ms[j]);
      var r := s.device.posted[k];
      var id := StoredIsAnnounced(s.device.server.db, s.outbox.rows, s.ids, c.device, r);
      assert r.sequence == k && Announced(s, c.device, r, id);
    }
  }

  /**
   From the queue to the event: a reading once queued is, at any later time and after any reboots, still queued
   as it was, counted as dropped, or stored as it was by a request that exactly one outbox row announces.
   */
  lemma QueuedToAnnounced(
    c: E.Config, w: W.Settings, states: seq<System>, steps: seq<Step>, m: nat, n: nat, y: State, x: State, k: int)
    returns (dropped: set<int>)
    requires IsRun(c, w, states, steps) && m <= n < |states|
    requires E.Current(states[m].device, y) && E.Current(states[n].device, x) && E.Queued(y, k).Some?
    ensures |dropped| == x.dropped && forall d :: d in dropped ==> 1 <= d < FirstPending(x)
    ensures || E.Queued(x, k) == E.Queued(y, k)
            || k in dropped
            || exists id :: Announced(states[n], c.device, E.Queued(y, k).value, id)
  {
    var s := states[n];
    dropped := Remembered(c, w, states, steps, m, n, y, x, k);
    ServiceFacts(c, w, states, steps, n);
    if E.StoredAs(s.device.server.db.measurements, c.device, E.Queued(y, k).value) {
      var r := E.Queued(y, k).value;
      var id := StoredIsAnnounced(s.device.server.db, s.outbox.rows, s.ids, c.device, r);
      assert Announced(s, c.device, r, id);
    }
  }

  // ---- everything queued can come to be announced ----

  ghost predicate Path(c: E.Config, w: W.Settings, states: seq<System>, steps: seq<Step>) {
    && |states| == |steps| + 1
    && forall i :: 0 <= i < |steps| ==> Next(c, w, states[i], steps[i], states[i + 1])
  }

  ghost predicate Reaches(c: E.Config, w: W.Settings, s: System, t: System) {
    exists states, steps :: Path(c, w, states, steps) && states[0] == s && states[|states| - 1] == t
  }

  lemma ReachesSelf(c: E.Config, w: W.Settings, s: System)
    ensures Reaches(c, w, s, s)
  {
    assert Path(c, w, [s], []) && [s][0] == s && [s][|[s]| - 1] == s;
  }

  lemma StepReaches(c: E.Config, w: W.Settings, s: System, t: System, step: Step, u: System)
    requires Reaches(c, w, s, t) && Next(c, w, t, step, u)
    ensures Reaches(c, w, s, u)
  {
    var states, steps :| Path(c, w, states, steps) && states[0] == s && states[|states| - 1] == t;
    var states', steps' := states + [u], steps + [step];
    forall i | 0 <= i < |steps'| ensures Next(c, w, states'[i], steps'[i], states'[i + 1]) {
      if i < |steps| {
        assert Next(c, w, states[i], steps[i], states[i + 1]);
      }
    }
    assert Path(c, w, states', steps') && states'[0] == s && states'[|states'| - 1] == u;
  }

  lemma {:induction false} PathInv(c: E.Config, w: W.Settings, states: seq<System>, steps: seq<Step>, n: nat)
    requires w.maxAttempts >= 1 && Path(c, w, states, steps) && n < |states| && Inv(c, w, states[0])
    ensures Inv(c, w, states[n])
  {
    if n == 0 {
    } else {
      PathInv(c, w, states, steps, n - 1);
      assert Next(c, w, states[n - 1], steps[n - 1], states[n]);
      StepKeepsInv(c, w, states[n - 1], steps[n - 1], states[n]);
    }
  }

  lemma ReachesInv(c: E.Config, w: W.Settings, s: System, t: System)
    requires w.maxAttempts >= 1 && Inv(c, w, s) && Reaches(c, w, s, t)
    ensures Inv(c, w, t)
  {
    var states, steps :| Path(c, w, states, steps) && states[0] == s && states[|states| - 1] == t;
    PathInv(c, w, states, steps, |steps|);
  }

  /** What the invariant says about the tables after a continuation of a run. */
  lemma TablesAfter(c: E.Config, w: W.Settings, states: seq<System>, steps: seq<Step>, n: nat, t: System)
    requires IsRun(c, w, states, steps) && n < |states| && Reaches(c, w, states[n], t)
    ensures W.Inv(w, t.outbox) && I.DbInv(t.device.server.db)
    ensures P.Announced(t.device.server.db.events, t.outbox.rows, t.ids)
  {
    RunInv(c, w, states, steps, n);
    ReachesInv(c, w, states[n], t);
  }

  /** Whatever device, network and service can do, they can do beside the outbox; a commit adds its event there. */
  lemma FollowsDevice(c: E.Config, w: W.Settings, t: System, step: E.Step, device: E.System)
    returns (step': Step, u: System)
    requires E.Next(c, t.device, step, device)
    ensures Next(c, w, t, step', u) && u.device == device
  {
    if !step.Serve? {
      step', u := Device(step), t.(device := device);
    } else {
      var db, db' := t.device.server.db, device.server.db;
      T.OnlyCommitWrites(t.device.server, step.step, device.server);
      var id := R.Unused(t.outbox.rows.Keys);
      step' := Serve(step.step, id, 0);
      if db' == db {
        u := t.(device := device);
      } else {
        var payload := db'.events[|db'.events| - 1].payload;
        var outbox := t.outbox.(rows := t.outbox.rows[id := O.NewRow(payload, 0)],
                                history := t.outbox.history[id := W.NEW_HISTORY]);
        u := System(device, outbox, t.ids + [id]);
      }
    }
  }

  lemma {:induction false} DevicePathLifts(
    c: E.Config, w: W.Settings, s: System, states: seq<E.System>, steps: seq<E.Step>, n: nat) returns (u: System)
    requires C.Path(c, states, steps) && n < |states| && states[0] == s.device
    ensures Reaches(c, w, s, u) && u.device == states[n]
  {
    if n == 0 {
      ReachesSelf(c, w, s);
      u := s;
    } else {
      var t := DevicePathLifts(c, w, s, states, steps, n - 1);
      assert E.Next(c, states[n - 1], steps[n - 1], states[n]);
      var step;
      step, u := FollowsDevice(c, w, t, steps[n - 1], states[n]);
      StepReaches(c, w, s, t, step, u);
    }
  }

  lemma {:induction false} WorkPathLifts(
    c: E.Config, w: W.Settings, s: System, t: System, states: seq<W.State>, steps: seq<W.Step>, n: nat)
    returns (u: System)
    requires Reaches(c, w, s, t) && D.Path(w, states, steps) && n < |states| && states[0] == t.outbox
    ensures Reaches(c, w, s, u) && u == t.(outbox := states[n])
  {
    if n == 0 {
      u := t;
    } else {
      var before := WorkPathLifts(c, w, s, t, states, steps, n - 1);
      assert W.Next(w, states[n - 1], steps[n - 1], states[n]);
      u := t.(outbox := states[n]);
      StepReaches(c, w, s, before, Work(steps[n - 1]), u);
    }
  }

  /** The device's part of a run is a run of the end-to-end machine. */
  lemma {:induction false} DeviceReachable(
    c: E.Config, w: W.Settings, states: seq<System>, steps: seq<Step>, n: nat)
    requires IsRun(c, w, states, steps) && n < |states|
    ensures C.Reachable(c, states[n].device)
  {
    if n == 0 {
      var device := states[0].device;
      assert E.IsRun(c, [device], []) && [device][|[device]| - 1] == device;
    } else {
      DeviceReachable(c, w, states, steps, n - 1);
      assert Next(c, w, states[n - 1], steps[n - 1], states[n]);
      match steps[n - 1] {
        case Device(inner) => C.StepReachable(c, states[n - 1].device, inner, states[n].device);
        case Serve(inner, _, _) => C.StepReachable(c, states[n - 1].device, E.Serve(inner), states[n].device);
        case Work(_) =>
      }
    }
  }

  /** The device's queue can be emptied, all of it being stored. */
  lemma DeviceDelivers(c: E.Config, w: W.Settings, s: System, limits: E.Limits) returns (t: System)
    requires C.Reachable(c, s.device) && E.ValidLimits(limits)
    requires s.device.power.On? || !Load(s.device.disk).FailClosed?
    ensures Reaches(c, w, s, t) && E.IdleOn(t.device) && t.device.power.mem.pending == []
    ensures forall i :: 0 <= i < |R.Present(s.device).pending| ==>
              E.StoredAs(t.device.server.db.measurements, c.device, R.Present(s.device).pending[i])
  {
    var device := R.EverythingCanBeDelivered(c, s.device, limits);
    var states, steps :| C.Path(c, states, steps) && states[0] == s.device && states[|states| - 1] == device;
    t := DevicePathLifts(c, w, s, states, steps, |steps|);
  }

  /** Then the outbox can be emptied. */
  lemma OutboxDelivers(c: E.Config, w: W.Settings, s: System, t: System) returns (u: System)
    requires w.maxAttempts >= 1 && w.limit >= 1 && Reaches(c, w, s, t) && W.Inv(w, t.outbox)
    ensures Reaches(c, w, s, u) && u.device == t.device
    ensures forall id :: id in u.outbox.rows ==> u.outbox.rows[id].status.Published?
  {
    var outbox := D.AllCanBePublished(w, t.outbox);
    var states, steps :| D.Path(w, states, steps) && states[0] == t.outbox && states[|states| - 1] == outbox;
    u := WorkPathLifts(c, w, s, t, states, steps, |steps|);
  }

  /** Some one row of the outbox announces the reading, and is published. */
  ghost predicate Delivered(s: System, device: string, r: Reading) {
    exists id :: Announced(s, device, r, id) && id in s.outbox.rows && s.outbox.rows[id].status.Published?
  }

  lemma StoredIsDelivered(s: System, device: string, r: Reading)
    requires I.DbInv(s.device.server.db) && P.Announced(s.device.server.db.events, s.outbox.rows, s.ids)
    requires forall id :: id in s.outbox.rows ==> s.outbox.rows[id].status.Published?
    requires E.StoredAs(s.device.server.db.measurements, device, r)
    ensures Delivered(s, device, r)
  {
    var id := StoredIsAnnounced(s.device.server.db, s.outbox.rows, s.ids, device, r);
    assert Announced(s, device, r, id);
  }

  /**
   From every reachable state in which the device runs or can start there is a continuation after which its queue
   is empty, and every reading that was in it is stored, announced by one outbox row, and published.
   */
  lemma EverythingCanBeAnnounced(
    c: E.Config, w: W.Settings, states: seq<System>, steps: seq<Step>, n: nat, limits: E.Limits) returns (u: System)
    requires IsRun(c, w, states, steps) && n < |states| && w.limit >= 1 && E.ValidLimits(limits)
    requires states[n].device.power.On? || !Load(states[n].device.disk).FailClosed?
    ensures Reaches(c, w, states[n], u) && E.IdleOn(u.device) && u.device.power.mem.pending == []
    ensures forall i :: 0 <= i < |R.Present(states[n].device).pending| ==>
              Delivered(u, c.device, R.Present(states[n].device).pending[i])
  {
    var s := states[n];
    DeviceReachable(c, w, states, steps, n);
    var t := DeviceDelivers(c, w, s, limits);
    TablesAfter(c, w, states, steps, n, t);
    u := OutboxDelivers(c, w, s, t);
    TablesAfter(c, w, states, steps, n, u);
    var pending := R.Present(s.device).pending;
    forall i | 0 <= i < |pending| ensures Delivered(u, c.device, pending[i]) {
      StoredIsDelivered(u, c.device, pending[i]);
    }
  }
}
