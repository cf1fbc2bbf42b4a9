/**
 The transactional outbox, end to end: ingestion transactions and outbox workers as one machine.  The commit of
 an ingestion request writes its outbox row in the same step; nothing else adds rows.  `ids` records under which
 identifier the event of each committed request stands in the outbox.
 */
module Pipeline {
  import opened Common
  import opened Ingestion
  import O = Outbox
  import W = OutboxWorkers
  import T = IngestionTransactions

  datatype System = System(service: T.State, outbox: W.State, ids: seq<O.EventId>)

  datatype Step = Serve(step: T.Step, id: O.EventId, now: int) | Work(work: W.Step)

  const INITIAL := System(T.INITIAL, W.INITIAL, [])

  ghost predicate Next(c: W.Settings, s: System, step: Step, s': System) {
    match step
    case Serve(inner, id, now) =>
      && T.Next(s.service, inner, s'.service)
      && if s'.service.db == s.service.db then s' == s.(service := s'.service)
         else
           && |s'.service.db.events| > 0
           && W.Next(c, s.outbox, W.Add(id, s'.service.db.events[|s'.service.db.events| - 1].payload, now), s'.outbox)
           && s'.ids == s.ids + [id]
    case Work(inner) =>
      && !inner.Add?
      && W.Next(c, s.outbox, inner, s'.outbox)
      && s' == s.(outbox := s'.outbox)
  }

  ghost predicate IsRun(c: W.Settings, states: seq<System>, steps: seq<Step>) {
    && c.maxAttempts >= 1
    && |states| == |steps| + 1
    && states[0] == INITIAL
    && forall i :: 0 <= i < |steps| ==> Next(c, states[i], steps[i], states[i + 1])
  }

  // ---- invariant ----

  /** The `i`-th event written by the service is the outbox row `ids[i]`. */
  ghost predicate Announced(events: seq<EventRow>, rows: O.Rows, ids: seq<O.EventId>) {
    && |ids| == |events|
    && W.Distinct(ids)
    && (forall i :: 0 <= i < |ids| ==> ids[i] in rows && rows[ids[i]].payload == events[i].payload)
    && forall id :: id in rows ==> id in ids
  }

  ghost predicate Inv(c: W.Settings, s: System) {
    T.Inv(s.service) && W.Inv(c, s.outbox) && Announced(s.service.db.events, s.outbox.rows, s.ids)
  }

  lemma AddKeepsAnnounced(
    events: seq<EventRow>, e: EventRow, rows: O.Rows, id: O.EventId, now: int, ids: seq<O.EventId>)
    requires Announced(events, rows, ids) && id !in rows
    ensures Announced(events + [e], rows[id := O.NewRow(e.payload, now)], ids + [id])
  {
    forall i | 0 <= i < |ids| ensures ids[i] != id {
      assert ids[i] in rows;
    }
    forall other | other in rows ensures other in ids + [id] {
      assert other in ids;
    }
    assert (ids + [id])[|ids|] == id;
  }

  lemma SameRowsAnnounced(events: seq<EventRow>, rows: O.Rows, rows': O.Rows, ids: seq<O.EventId>)
    requires Announced(events, rows, ids) && rows'.Keys == rows.Keys
    requires forall id :: id in rows ==> rows'[id].payload == rows[id].payload
    ensures Announced(events, rows', ids)
  {
    forall id | id in rows' ensures id in ids {
      assert id in rows'.Keys && id in rows;
    }
  }

  /** Workers and administrator neither add nor remove rows, nor change what they announce. */
  lemma WorkKeepsRows(c: W.Settings, s: W.State, step: W.Step, s': W.State)
    requires W.Inv(c, s) && W.Next(c, s, step, s') && !step.Add?
    ensures s'.rows.Keys == s.rows.Keys
    ensures forall id :: id in s.rows ==> s'.rows[id].payload == s.rows[id].payload
  {
    forall id | id in s.rows ensures id in s'.rows && s'.rows[id].payload == s.rows[id].payload {
      W.StepKeepsPublished(c, s, step, s', id);
    }
  }

  lemma ServeKeepsAnnounced(c: W.Settings, s: System, step: Step, s': System)
    requires c.maxAttempts >= 1 && Inv(c, s) && step.Serve? && Next(c, s, step, s')
    ensures W.Inv(c, s'.outbox) && Announced(s'.service.db.events, s'.outbox.rows, s'.ids)
  {
    T.OnlyCommitWrites(s.service, step.step, s'.service);
    var events, events' := s.service.db.events, s'.service.db.events;
    if s'.service.db != s.service.db {
      var e := events'[|events'| - 1];
      assert events' == events + [e];
      W.StepKeepsInv(c, s.outbox, W.Add(step.id, e.payload, step.now), s'.outbox);
      AddKeepsAnnounced(events, e, s.outbox.rows, step.id, step.now, s.ids);
    }
  }

  lemma StepKeepsInv(c: W.Settings, s: System, step: Step, s': System)
    requires c.maxAttempts >= 1 && Inv(c, s) && Next(c, s, step, s')
    ensures Inv(c, s')
  {
    match step {
      case Serve(inner, _, _) =>
        T.StepKeepsInv(s.service, inner, s'.service);
        ServeKeepsAnnounced(c, s, step, s');
      case Work(inner) =>
        W.StepKeepsInv(c, s.outbox, inner, s'.outbox);
        WorkKeepsRows(c, s.outbox, inner, s'.outbox);
        SameRowsAnnounced(s.service.db.events, s.outbox.rows, s'.outbox.rows, s.ids);
    }
  }

  lemma {:induction false} RunInv(c: W.Settings, states: seq<System>, steps: seq<Step>, n: nat)
    requires IsRun(c, states, steps) && n < |states|
    ensures Inv(c, states[n])
  {
    if n == 0 {
      T.InitialInv();
    } else {
      RunInv(c, states, steps, n - 1);
      assert Next(c, states[n - 1], steps[n - 1], states[n]);
      StepKeepsInv(c, states[n - 1], steps[n - 1], states[n]);
    }
  }

  lemma StepGrows(c: W.Settings, s: System, step: Step, s': System)
    requires Next(c, s, step, s')
    ensures s.ids <= s'.ids && s.service.db.requests <= s'.service.db.requests
  {
    if step.Serve? {
      T.OnlyCommitWrites(s.service, step.step, s'.service);
    }
  }

  lemma {:induction false} RunGrows(c: W.Settings, states: seq<System>, steps: seq<Step>, m: nat, n: nat)
    requires IsRun(c, states, steps) && m <= n < |states|
    ensures states[m].ids <= states[n].ids
    ensures states[m].service.db.requests <= states[n].service.db.requests
    decreases n
  {
    if m == n {
    } else {
      RunGrows(c, states, steps, m, n - 1);
      assert Next(c, states[n - 1], steps[n - 1], states[n]);
      StepGrows(c, states[n - 1], steps[n - 1], states[n]);
    }
  }

  // ---- main results, over every run ----

  /** The outbox row announces this committed request, and no other row does. */
  ghost predicate OnlyRowOf(rows: O.Rows, id: O.EventId, row: RequestRow) {
    && row.response.Some?
    && id in rows && rows[id].payload == row.response.value
    && forall other :: other in rows && rows[other].payload.requestId == row.id ==> other == id
  }

  lemma EventOfRequest(db: Db, i: nat)
    requires DbInv(db) && i < |db.requests|
    ensures db.requests[i].response.Some? && db.events[i].payload == db.requests[i].response.value
    ensures db.events[i].payload.requestId == db.requests[i].id
  {
    assert db.requests[i] in db.requests && RequestOk(db, db.requests[i]);
  }

  lemma RowOfRequest(db: Db, rows: O.Rows, ids: seq<O.EventId>, i: nat)
    requires DbInv(db) && Announced(db.events, rows, ids) && i < |db.requests|
    ensures |ids| == |db.requests| && OnlyRowOf(rows, ids[i], db.requests[i])
  {
    EventOfRequest(db, i);
    forall other | other in rows && rows[other].payload.requestId == db.requests[i].id ensures other == ids[i] {
      var j :| 0 <= j < |ids| && ids[j] == other;
      EventOfRequest(db, j);
    }
  }

  /**
   Every committed request has exactly one outbox row, for ever: found at some moment, the row is the same one at
   any later moment, still carries the request's answer, and is published only once it has been delivered.
   */
  lemma OneEventForEver(c: W.Settings, states: seq<System>, steps: seq<Step>, m: nat, n: nat, row: RequestRow)
    returns (id: O.EventId)
    requires IsRun(c, states, steps) && m <= n < |states| && row in states[m].service.db.requests
    ensures OnlyRowOf(states[m].outbox.rows, id, row) && OnlyRowOf(states[n].outbox.rows, id, row)
    ensures states[n].outbox.rows[id].status.Published? ==> id in states[n].outbox.delivered
  {
    var i :| 0 <= i < |states[m].service.db.requests| && states[m].service.db.requests[i] == row;
    RunInv(c, states, steps, m);
    RunInv(c, states, steps, n);
    RowOfRequest(states[m].service.db, states[m].outbox.rows, states[m].ids, i);
    id := states[m].ids[i];
    RunGrows(c, states, steps, m, n);
    RowOfRequest(states[n].service.db, states[n].outbox.rows, states[n].ids, i);
    assert W.EventOk(c, states[n].outbox, id);
  }

  /** No event without its request: every outbox row carries the answer of a committed request. */
  lemma EventsHaveRequests(c: W.Settings, states: seq<System>, steps: seq<Step>, n: nat, id: O.EventId)
    returns (row: RequestRow)
    requires IsRun(c, states, steps) && n < |states| && id in states[n].outbox.rows
    ensures row in states[n].service.db.requests && OnlyRowOf(states[n].outbox.rows, id, row)
  {
    RunInv(c, states, steps, n);
    var i :| 0 <= i < |states[n].ids| && states[n].ids[i] == id;
    RowOfRequest(states[n].service.db, states[n].outbox.rows, states[n].ids, i);
    row := states[n].service.db.requests[i];
  }

  /** Whatever was answered positively stands in the outbox, with the answer as its payload. */
  lemma AcknowledgedIsAnnounced(
    c: W.Settings, states: seq<System>, steps: seq<Step>, n: nat, req: Request, outcome: Outcome)
    returns (id: O.EventId)
    requires IsRun(c, states, steps) && n < |states|
    requires (req, outcome) in states[n].service.responses && (outcome.Accepted? || outcome.Replayed?)
    ensures id in states[n].outbox.rows && states[n].outbox.rows[id].payload == outcome.ack
  {
    RunInv(c, states, steps, n);
    var s := states[n].service;
    var p := (req, outcome);
    assert p in s.responses && T.ResponseOk(s, p.0, p.1) && T.HasAnswer(s.db, req, outcome.ack);
    var row :| row in s.db.requests && Matches(row, req.device, req.key) && row.body == req.body
               && row.response == Some(outcome.ack);
    id := OneEventForEver(c, states, steps, n, n, row);
  }

  // ---- counting ----

  function WithStatus(rows: O.Rows, status: O.Status): set<O.EventId> {
    set id | id in rows && rows[id].status == status
  }

  /** What an operator who waits for the outbox waits for: nothing pending, in work or dead. */
  predicate Drained(rows: O.Rows) {
    && WithStatus(rows, O.Pending) == {} && WithStatus(rows, O.Processing) == {} && WithStatus(rows, O.Dead) == {}
  }

  function Elements(ids: seq<O.EventId>): set<O.EventId> {
    set id | id in ids
  }

  lemma {:induction false} DistinctCount(ids: seq<O.EventId>)
    requires W.Distinct(ids)
    ensures |Elements(ids)| == |ids|
  {
    if |ids| == 0 {
    } else {
      var earlier, last := ids[..|ids| - 1], ids[|ids| - 1];
      DistinctCount(earlier);
      assert last !in earlier && ids == earlier + [last];
      assert Elements(ids) == Elements(earlier) + {last};
    }
  }

  lemma DrainedIsPublished(rows: O.Rows)
    requires Drained(rows)
    ensures WithStatus(rows, O.Published) == rows.Keys
  {
    forall id | id in rows ensures rows[id].status.Published? {
      assert id !in WithStatus(rows, O.Pending) && id !in WithStatus(rows, O.Processing);
      assert id !in WithStatus(rows, O.Dead);
    }
  }

  lemma AnnouncedCount(events: seq<EventRow>, rows: O.Rows, ids: seq<O.EventId>)
    requires Announced(events, rows, ids)
    ensures |rows.Keys| == |events|
  {
    DistinctCount(ids);
    assert rows.Keys == Elements(ids);
  }

  /** Once the outbox is drained, exactly the committed requests have been published, each once. */
  lemma DrainedCount(c: W.Settings, states: seq<System>, steps: seq<Step>, n: nat)
    requires IsRun(c, states, steps) && n < |states| && Drained(states[n].outbox.rows)
    ensures |WithStatus(states[n].outbox.rows, O.Published)| == |states[n].service.db.requests|
  {
    var s := states[n];
    RunInv(c, states, steps, n);
    DrainedIsPublished(s.outbox.rows);
    AnnouncedCount(s.service.db.events, s.outbox.rows, s.ids);
  }
}
