/**
 Concurrent ingestion transactions, one database statement at a time.  A statement that meets a unique key
 held by another open transaction waits (its step is not enabled) until that transaction commits or rolls
 back; rows of open transactions are invisible to everyone else.
 The main result is serialisability in commit order: whatever the interleaving, the committed database is
 the one obtained by running the committed requests one after the other.
 */
module IngestionTransactions {
  import opened Common
  import opened Ingestion

  datatype Phase =
    | Started
      // The key is reserved under `id`; the first `done` readings are processed; `staged` once answered.
    | Holding(id: nat, done: nat, rows: seq<MeasurementRow>, staged: bool)
    | Answering(ack: Ack)

  /** `lastRead` is the device's `last_sequence` as loaded when the transaction began. */
  datatype Tx = Tx(req: Request, lastRead: Option<nat>, phase: Phase)

  /** `begun`, `responses`, `ids` and `log` record the past; only `db` and `last` are the database. */
  datatype State = State(
    db: Db, last: map<string, nat>, txs: map<nat, Tx>,
    begun: set<Request>, responses: set<(Request, Outcome)>, ids: set<nat>, log: seq<(nat, Request)>)

  datatype Step =
    | Begin(t: nat, req: Request)
    | Reserve(t: nat, id: nat)
    | Insert(t: nat)
    | Stage(t: nat)
    | Commit(t: nat)
    | Abort(t: nat)

  const INITIAL := State(EMPTY_DB, map[], map[], {}, {}, {}, [])

  function LastOf(last: map<string, nat>, device: string): Option<nat> {
    if device in last then Some(last[device]) else None
  }

  function NewLast(tx: Tx): nat {
    Max(tx.lastRead.GetOr(0), BatchMax(tx.req.body.readings))
  }

  /** The column is written back only when the assignment changed the loaded value. */
  function LastAfter(last: map<string, nat>, tx: Tx): map<string, nat> {
    if tx.lastRead == Some(NewLast(tx)) then last else last[tx.req.device := NewLast(tx)]
  }

  predicate HoldsKey(tx: Tx, device: string, key: string) {
    tx.phase.Holding? && tx.req.device == device && tx.req.key == key
  }

  predicate HoldsSlot(tx: Tx, device: string, sequence: nat) {
    tx.phase.Holding? && Has(tx.phase.rows, device, sequence)
  }

  ghost predicate KeyFree(s: State, t: nat, device: string, key: string) {
    forall u :: u in s.txs && u != t ==> !HoldsKey(s.txs[u], device, key)
  }

  ghost predicate SlotFree(s: State, t: nat, device: string, sequence: nat) {
    forall u :: u in s.txs && u != t ==> !HoldsSlot(s.txs[u], device, sequence)
  }

  function WithPhase(s: State, t: nat, phase: Phase): State
    requires t in s.txs
  {
    s.(txs := s.txs[t := s.txs[t].(phase := phase)])
  }

  function Finish(s: State, t: nat, outcome: Outcome): State
    requires t in s.txs
  {
    s.(txs := s.txs - {t}, responses := s.responses + {(s.txs[t].req, outcome)})
  }

  ghost predicate Next(s: State, step: Step, s': State) {
    match step
    case Begin(t, req) =>
      && t !in s.txs && |req.body.readings| > 0
      && s' == s.(txs := s.txs[t := Tx(req, LastOf(s.last, req.device), Started)], begun := s.begun + {req})
    case Reserve(t, id) =>
      && t in s.txs && s.txs[t].phase.Started?
      && var req := s.txs[t].req;
      && KeyFree(s, t, req.device, req.key)
      && (match Find(s.db.requests, req.device, req.key)
          case None => id !in s.ids && s' == WithPhase(s, t, Holding(id, 0, [], false)).(ids := s.ids + {id})
          case Some(row) =>
            match Existing(row, req)
            case Replayed(ack) => s' == WithPhase(s, t, Answering(ack))
            case outcome => s' == Finish(s, t, outcome))
    case Insert(t) =>
      && t in s.txs && s.txs[t].phase.Holding? && s.txs[t].phase.done < |s.txs[t].req.body.readings|
      && var tx := s.txs[t];
      && var r := tx.req.body.readings[tx.phase.done];
      && SlotFree(s, t, tx.req.device, r.sequence)
      && var rows := tx.phase.rows;
      && var rows' := if Has(s.db.measurements + rows, tx.req.device, r.sequence) then rows
                      else rows + [MeasurementRow(tx.req.device, tx.phase.id, r)];
      && s' == WithPhase(s, t, tx.phase.(done := tx.phase.done + 1, rows := rows'))
    case Stage(t) =>
      && t in s.txs && s.txs[t].phase.Holding? && s.txs[t].phase.done == |s.txs[t].req.body.readings|
      && s' == WithPhase(s, t, s.txs[t].phase.(staged := true))
    case Commit(t) =>
      && t in s.txs
      && var tx := s.txs[t];
      && (match tx.phase
          case Started => false
          case Holding(id, _, rows, staged) =>
            && staged
            && s' == Finish(s, t, Accepted(AckFor(id, tx.req, |rows|)))
                     .(db := Committed(s.db, id, tx.req, rows), last := LastAfter(s.last, tx),
                       log := s.log + [(id, tx.req)])
          case Answering(ack) =>
            s' == Finish(s, t, Replayed(ack)).(last := LastAfter(s.last, tx)))
    case Abort(t) =>
      && t in s.txs && s' == s.(txs := s.txs - {t})
  }

  ghost predicate IsRun(states: seq<State>, steps: seq<Step>) {
    && |states| == |steps| + 1
    && states[0] == INITIAL
    && forall i :: 0 <= i < |steps| ==> Next(states[i], steps[i], states[i + 1])
  }

  /** Running the committed requests one after the other. */
  function RunSerial(log: seq<(nat, Request)>): Db {
    if |log| == 0 then EMPTY_DB
    else Ingest(RunSerial(log[..|log| - 1]), log[|log| - 1].0, log[|log| - 1].1).0
  }

  // ---- invariant ----

  ghost predicate HasAnswer(db: Db, req: Request, ack: Ack) {
    exists row :: row in db.requests && Matches(row, req.device, req.key) && row.body == req.body
                  && row.response == Some(ack)
  }

  ghost predicate HasRival(db: Db, req: Request) {
    exists row :: row in db.requests && Matches(row, req.device, req.key) && row.body != req.body
  }

  ghost predicate TxOk(s: State, tx: Tx) {
    && tx.req in s.begun
    && match tx.phase
       case Started => true
       case Holding(id, done, rows, staged) =>
         && id in s.ids
         && FreshId(s.db, id)
         && Find(s.db.requests, tx.req.device, tx.req.key).None?
         && done <= |tx.req.body.readings|
         && (staged ==> done == |tx.req.body.readings|)
         && rows == FreshRows(s.db.measurements, tx.req.device, id, tx.req.body.readings[..done])
       case Answering(ack) => HasAnswer(s.db, tx.req, ack)
  }

  ghost predicate Compatible(a: Tx, b: Tx) {
    a.phase.Holding? && b.phase.Holding? ==>
      && a.phase.id != b.phase.id
      && !HoldsKey(a, b.req.device, b.req.key)
      && forall m :: m in a.phase.rows ==> !Has(b.phase.rows, m.device, m.reading.sequence)
  }

  ghost predicate ResponseOk(s: State, req: Request, outcome: Outcome) {
    && req in s.begun
    && match outcome
       case Accepted(ack) => HasAnswer(s.db, req, ack)
       case Replayed(ack) => HasAnswer(s.db, req, ack)
       case Conflict => HasRival(s.db, req)
       case InProgress => false
  }

  ghost predicate Inv(s: State) {
    && DbInv(s.db)
    && s.db == RunSerial(s.log)
    && (forall row :: row in s.db.requests ==> row.id in s.ids && Request(row.device, row.key, row.body) in s.begun)
    && (forall t :: t in s.txs ==> TxOk(s, s.txs[t]))
    && (forall t, u :: t in s.txs && u in s.txs && t != u ==> Compatible(s.txs[t], s.txs[u]))
    && (forall p :: p in s.responses ==> ResponseOk(s, p.0, p.1))
  }

  lemma InitialInv()
    ensures Inv(INITIAL)
  {
    EmptyInv();
  }

  /** What was answered stays answered: committed requests are never changed or removed. */
  lemma AnswersStay(db: Db, id: nat, req: Request, rows: seq<MeasurementRow>, other: Request, ack: Ack)
    ensures HasAnswer(db, other, ack) ==> HasAnswer(Committed(db, id, req, rows), other, ack)
    ensures HasRival(db, other) ==> HasRival(Committed(db, id, req, rows), other)
  {
    var db' := Committed(db, id, req, rows);
    if HasAnswer(db, other, ack) {
      var row :| row in db.requests && Matches(row, other.device, other.key) && row.body == other.body
                 && row.response == Some(ack);
      assert row in db'.requests;
    }
    if HasRival(db, other) {
      var row :| row in db.requests && Matches(row, other.device, other.key) && row.body != other.body;
      assert row in db'.requests;
    }
  }

  /** A transaction that commits does exactly what it would have done alone, at that moment. */
  lemma CommitIsSerial(s: State, t: nat)
    requires Inv(s) && t in s.txs && s.txs[t].phase.Holding? && s.txs[t].phase.staged
    ensures var tx := s.txs[t];
            Ingest(s.db, tx.phase.id, tx.req)
            == (Committed(s.db, tx.phase.id, tx.req, tx.phase.rows),
                Accepted(AckFor(tx.phase.id, tx.req, |tx.phase.rows|)))
  {
    var tx := s.txs[t];
    assert TxOk(s, tx);
    assert tx.req.body.readings[..|tx.req.body.readings|] == tx.req.body.readings;
  }

  /** Another transaction's commit leaves this one's reservations and pending rows exactly as they were. */
  lemma OtherTxOk(s: State, tx: Tx, other: Tx, s': State)
    requires TxOk(s, tx) && TxOk(s, other) && Compatible(other, tx) && Compatible(tx, other)
    requires tx.phase.Holding?
    requires s'.db == Committed(s.db, tx.phase.id, tx.req, tx.phase.rows)
    requires s'.ids == s.ids && s'.begun == s.begun
    ensures TxOk(s', other)
  {
    match other.phase
    case Started =>
    case Answering(ack) => AnswersStay(s.db, tx.phase.id, tx.req, tx.phase.rows, other.req, ack);
    case Holding(id, done, rows, staged) =>
      var readings := other.req.body.readings[..done];
      FreshRowsOrigin(s.db.measurements, other.req.device, id, readings);
      FreshRowsStable(s.db.measurements, tx.phase.rows, other.req.device, id, readings);
      assert s'.db.requests[..|s'.db.requests| - 1] == s.db.requests;
  }

  lemma CommitKeepsInv(s: State, t: nat, s': State)
    requires Inv(s) && Next(s, Commit(t), s') && s.txs[t].phase.Holding?
    ensures Inv(s')
  {
    var tx := s.txs[t];
    assert TxOk(s, tx);
    CommitIsSerial(s, t);
    IngestKeepsInv(s.db, tx.phase.id, tx.req);
    assert s'.log[..|s'.log| - 1] == s.log;
    forall u | u in s'.txs ensures TxOk(s', s'.txs[u]) {
      OtherTxOk(s, tx, s.txs[u], s');
    }
    forall p | p in s'.responses ensures ResponseOk(s', p.0, p.1) {
      if p in s.responses {
        assert ResponseOk(s, p.0, p.1);
        var ack := if p.1.Accepted? || p.1.Replayed? then p.1.ack else AckFor(0, tx.req, 0);
        AnswersStay(s.db, tx.phase.id, tx.req, tx.phase.rows, p.0, ack);
      } else {
        var row := s'.db.requests[|s.db.requests|];
        assert row in s'.db.requests && HasAnswer(s'.db, tx.req, row.response.value);
      }
    }
  }

  /** The row just inserted collides with no row another open transaction has inserted. */
  lemma InsertCompatible(s: State, t: nat, s': State, u: nat)
    requires Inv(s) && Next(s, Insert(t), s') && u in s.txs && u != t
    ensures Compatible(s'.txs[t], s'.txs[u]) && Compatible(s'.txs[u], s'.txs[t])
  {
    var tx, tx', other := s.txs[t], s'.txs[t], s.txs[u];
    assert Compatible(tx, other) && Compatible(other, tx);
    if other.phase.Holding? && tx'.phase.rows != tx.phase.rows {
      var r := tx.req.body.readings[tx.phase.done];
      var added := [MeasurementRow(tx.req.device, tx.phase.id, r)];
      assert !HoldsSlot(other, tx.req.device, r.sequence);
      forall m | m in other.phase.rows ensures !Has(tx'.phase.rows, m.device, m.reading.sequence) {
        HasAppend(tx.phase.rows, added, m.device, m.reading.sequence);
        assert !SameSlot(m, tx.req.device, r.sequence) by {
          var j :| 0 <= j < |other.phase.rows| && other.phase.rows[j] == m;
        }
      }
    }
  }

  lemma InsertTxOk(s: State, t: nat, s': State)
    requires t in s.txs && TxOk(s, s.txs[t]) && Next(s, Insert(t), s')
    ensures TxOk(s', s'.txs[t])
  {
    var readings, done := s.txs[t].req.body.readings, s.txs[t].phase.done;
    assert readings[..done + 1][..done] == readings[..done];
  }

  lemma InsertKeepsInv(s: State, t: nat, s': State)
    requires Inv(s) && Next(s, Insert(t), s')
    ensures Inv(s')
  {
    forall u | u in s'.txs ensures TxOk(s', s'.txs[u]) {
      assert TxOk(s, s.txs[u]);
      if u == t {
        InsertTxOk(s, t, s');
      }
    }
    forall u, v | u in s'.txs && v in s'.txs && u != v ensures Compatible(s'.txs[u], s'.txs[v]) {
      assert Compatible(s.txs[u], s.txs[v]);
      if u == t {
        InsertCompatible(s, t, s', v);
      } else if v == t {
        InsertCompatible(s, t, s', u);
      }
    }
    forall p | p in s'.responses ensures ResponseOk(s', p.0, p.1) {
      assert ResponseOk(s, p.0, p.1);
    }
  }

  lemma ReserveTxOk(s: State, t: nat, id: nat, s': State)
    requires Inv(s) && Next(s, Reserve(t, id), s') && t in s'.txs && TxOk(s, s.txs[t])
    ensures TxOk(s', s'.txs[t])
  {
    assert s.txs[t].req.body.readings[..0] == [];
  }

  /** The key was free and the identifier new, so no other open transaction is disturbed. */
  lemma ReserveCompatible(s: State, t: nat, id: nat, s': State, u: nat)
    requires Inv(s) && Next(s, Reserve(t, id), s') && u != t
    requires t in s'.txs && u in s.txs && u in s'.txs
    ensures Compatible(s'.txs[t], s'.txs[u]) && Compatible(s'.txs[u], s'.txs[t])
  {
    assert TxOk(s, s.txs[u]) && !HoldsKey(s.txs[u], s.txs[t].req.device, s.txs[t].req.key);
  }

  lemma ReserveKeepsInv(s: State, t: nat, id: nat, s': State)
    requires Inv(s) && Next(s, Reserve(t, id), s')
    ensures Inv(s')
  {
    var req := s.txs[t].req;
    var found := Find(s.db.requests, req.device, req.key);
    assert TxOk(s, s.txs[t]);
    forall u | u in s'.txs ensures TxOk(s', s'.txs[u]) {
      assert TxOk(s, s.txs[u]);
      if u == t {
        ReserveTxOk(s, t, id, s');
      }
    }
    forall u, v | u in s'.txs && v in s'.txs && u != v ensures Compatible(s'.txs[u], s'.txs[v]) {
      assert Compatible(s.txs[u], s.txs[v]) && Compatible(s.txs[v], s.txs[u]);
      if u == t {
        ReserveCompatible(s, t, id, s', v);
      } else if v == t {
        ReserveCompatible(s, t, id, s', u);
      }
    }
    forall p | p in s'.responses ensures ResponseOk(s', p.0, p.1) {
      if p in s.responses {
        assert ResponseOk(s, p.0, p.1);
      } else {
        assert RequestOk(s.db, found.value);
      }
    }
  }

  /** Steps that neither write the database nor take a lock. */
  lemma QuietStepKeepsInv(s: State, step: Step, s': State)
    requires Inv(s) && Next(s, step, s')
    requires step.Begin? || step.Stage? || step.Abort? || (step.Commit? && s.txs[step.t].phase.Answering?)
    ensures Inv(s')
  {
    assert step.Begin? || TxOk(s, s.txs[step.t]);
    forall u | u in s'.txs ensures TxOk(s', s'.txs[u]) {
      assert u in s.txs ==> TxOk(s, s.txs[u]);
    }
    forall u, v | u in s'.txs && v in s'.txs && u != v ensures Compatible(s'.txs[u], s'.txs[v]) {
      assert u in s.txs && v in s.txs ==> Compatible(s.txs[u], s.txs[v]);
    }
    forall p | p in s'.responses ensures ResponseOk(s', p.0, p.1) {
      assert p in s.responses ==> ResponseOk(s, p.0, p.1);
    }
  }

  lemma StepKeepsInv(s: State, step: Step, s': State)
    requires Inv(s) && Next(s, step, s')
    ensures Inv(s')
  {
    match step {
      case Reserve(t, id) => ReserveKeepsInv(s, t, id, s');
      case Insert(t) => InsertKeepsInv(s, t, s');
      case Commit(t) =>
        if s.txs[t].phase.Holding? {
          CommitKeepsInv(s, t, s');
        } else {
          QuietStepKeepsInv(s, step, s');
        }
      case _ => QuietStepKeepsInv(s, step, s');
    }
  }

  /** Tables change only at the commit of a reserved request, and only by appending. */
  lemma OnlyCommitWrites(s: State, step: Step, s': State)
    requires Next(s, step, s')
    ensures s.db.requests <= s'.db.requests && s.db.measurements <= s'.db.measurements && s.db.events <= s'.db.events
    ensures s'.db != s.db ==>
              && step.Commit? && s.txs[step.t].phase.Holding?
              && |s'.db.requests| == |s.db.requests| + 1 && |s'.db.events| == |s.db.events| + 1
    ensures s.responses <= s'.responses && s.begun <= s'.begun
    ensures forall req :: req in s'.begun && req !in s.begun ==> step.Begin? && req == step.req
  {
  }

  lemma {:induction false} RunInv(states: seq<State>, steps: seq<Step>, n: nat)
    requires IsRun(states, steps) && n < |states|
    ensures Inv(states[n])
  {
    if n == 0 {
      InitialInv();
    } else {
      RunInv(states, steps, n - 1);
      assert Next(states[n - 1], steps[n - 1], states[n]);
      StepKeepsInv(states[n - 1], steps[n - 1], states[n]);
    }
  }

  // ---- main results, over every run ----

  /** Every interleaving leaves the database a serial run of the committed requests would leave. */
  lemma Serialisable(states: seq<State>, steps: seq<Step>, n: nat)
    requires IsRun(states, steps) && n < |states|
    ensures states[n].db == RunSerial(states[n].log)
    ensures DbInv(states[n].db)
  {
    RunInv(states, steps, n);
  }

  /** The log has an entry for each committed request, and no other. */
  ghost predicate LogsRequests(s: State) {
    && |s.log| == |s.db.requests|
    && forall i :: 0 <= i < |s.log| ==>
         var row := s.db.requests[i];
         s.log[i] == (row.id, Request(row.device, row.key, row.body))
  }

  lemma StepKeepsLog(s: State, step: Step, s': State)
    requires LogsRequests(s) && Next(s, step, s')
    ensures LogsRequests(s')
  {
  }

  /** What is run serially is exactly what was committed: the log lists the request rows, in order. */
  lemma {:induction false} LogIsRequests(states: seq<State>, steps: seq<Step>, n: nat)
    requires IsRun(states, steps) && n < |states|
    ensures LogsRequests(states[n])
  {
    if n == 0 {
    } else {
      LogIsRequests(states, steps, n - 1);
      assert Next(states[n - 1], steps[n - 1], states[n]);
      StepKeepsLog(states[n - 1], steps[n - 1], states[n]);
    }
  }

  /** Exactly one request row per key, one measurement per sequence, one event per request with its answer. */
  lemma CommittedDatabase(states: seq<State>, steps: seq<Step>, n: nat, row: RequestRow)
    requires IsRun(states, steps) && n < |states| && row in states[n].db.requests
    ensures UniqueKeys(states[n].db.requests) && UniqueSlots(states[n].db.measurements)
    ensures row.response.Some? && row.response.value.requestId == row.id
    ensures row.response.value.accepted == Owned(states[n].db.measurements, row.id)
    ensures exists i :: 0 <= i < |states[n].db.events|
                        && states[n].db.events[i] == EventRow(row.id, row.response.value)
                        && forall j :: 0 <= j < |states[n].db.events| && j != i ==>
                                         states[n].db.events[j].aggregateId != row.id
  {
    RunInv(states, steps, n);
    var db := states[n].db;
    assert RequestOk(db, row);
    var i :| 0 <= i < |db.requests| && db.requests[i] == row;
    assert db.events[i] == EventRow(row.id, row.response.value);
    forall j | 0 <= j < |db.events| && j != i ensures db.events[j].aggregateId != row.id {
      assert db.events[j] == EventRow(db.requests[j].id, db.requests[j].response.value);
    }
  }

  lemma AnswerCoversBatch(s: State, req: Request, outcome: Outcome)
    requires Inv(s) && (req, outcome) in s.responses && (outcome.Accepted? || outcome.Replayed?)
    ensures outcome.ack.accepted + outcome.ack.duplicates == |req.body.readings|
    ensures AllStored(s.db.measurements, req.device, req.body.readings)
  {
    var p := (req, outcome);
    assert p in s.responses && ResponseOk(s, p.0, p.1);
    assert HasAnswer(s.db, req, outcome.ack);
    var row :| row in s.db.requests && Matches(row, req.device, req.key) && row.body == req.body
               && row.response == Some(outcome.ack);
    assert RequestOk(s.db, row);
  }

  /** A positive answer, fresh or replayed, covers its batch, all of which is then committed. */
  lemma AcknowledgedIsStored(states: seq<State>, steps: seq<Step>, n: nat, req: Request, outcome: Outcome)
    requires IsRun(states, steps) && n < |states|
    requires (req, outcome) in states[n].responses && (outcome.Accepted? || outcome.Replayed?)
    ensures outcome.ack.accepted + outcome.ack.duplicates == |req.body.readings|
    ensures AllStored(states[n].db.measurements, req.device, req.body.readings)
  {
    RunInv(states, steps, n);
    AnswerCoversBatch(states[n], req, outcome);
  }

  lemma AnswerExcludesRival(db: Db, req: Request, ack: Ack)
    requires DbInv(db) && HasAnswer(db, req, ack)
    ensures !HasRival(db, req)
  {
    forall row | row in db.requests && Matches(row, req.device, req.key)
      ensures Find(db.requests, req.device, req.key) == Some(row)
    {
      FindUnique(db.requests, row);
    }
  }

  /** All answers to one key with one body carry the same response, however deliveries interleave. */
  lemma AnswersAgree(states: seq<State>, steps: seq<Step>, n: nat, req: Request, a: Outcome, b: Outcome)
    requires IsRun(states, steps) && n < |states|
    requires (req, a) in states[n].responses && (a.Accepted? || a.Replayed?)
    requires (req, b) in states[n].responses
    ensures (b.Accepted? || b.Replayed?) && a.ack == b.ack
  {
    RunInv(states, steps, n);
    var db := states[n].db;
    assert ResponseOk(states[n], (req, a).0, (req, a).1) && ResponseOk(states[n], (req, b).0, (req, b).1);
    assert HasAnswer(db, req, a.ack);
    var row :| row in db.requests && Matches(row, req.device, req.key) && row.body == req.body
               && row.response == Some(a.ack);
    FindUnique(db.requests, row);
    AnswerExcludesRival(db, req, a.ack);
    assert HasAnswer(db, req, b.ack);
    var other :| other in db.requests && Matches(other, req.device, req.key) && other.body == req.body
                 && other.response == Some(b.ack);
    FindUnique(db.requests, other);
  }

  /** The "still processing" answer is never given: a visible request row always carries its response. */
  lemma NeverInProgress(states: seq<State>, steps: seq<Step>, n: nat, req: Request)
    requires IsRun(states, steps) && n < |states|
    ensures (req, InProgress) !in states[n].responses
  {
    RunInv(states, steps, n);
  }

  /** The answer that says a row's request was accepted has been given. */
  ghost predicate WasAccepted(s: State, row: RequestRow) {
    row.response.Some? && (Request(row.device, row.key, row.body), Accepted(row.response.value)) in s.responses
  }

  lemma StepKeepsAccepted(s: State, step: Step, s': State)
    requires Next(s, step, s') && forall row :: row in s.db.requests ==> WasAccepted(s, row)
    ensures forall row :: row in s'.db.requests ==> WasAccepted(s', row)
  {
    OnlyCommitWrites(s, step, s');
    forall row | row in s'.db.requests ensures WasAccepted(s', row) {
      assert row in s.db.requests ==> WasAccepted(s, row);
    }
  }

  lemma {:induction false} RowsAccepted(states: seq<State>, steps: seq<Step>, n: nat)
    requires IsRun(states, steps) && n < |states|
    ensures forall row :: row in states[n].db.requests ==> WasAccepted(states[n], row)
  {
    if n == 0 {
    } else {
      RowsAccepted(states, steps, n - 1);
      assert Next(states[n - 1], steps[n - 1], states[n]);
      StepKeepsAccepted(states[n - 1], steps[n - 1], states[n]);
    }
  }

  /** The committed requests are exactly the ones answered as accepted, each with the answer it was given. */
  lemma StoredExactlyAccepted(states: seq<State>, steps: seq<Step>, n: nat, req: Request, ack: Ack)
    requires IsRun(states, steps) && n < |states|
    ensures HasAnswer(states[n].db, req, ack) <==> (req, Accepted(ack)) in states[n].responses
  {
    RunInv(states, steps, n);
    RowsAccepted(states, steps, n);
    var p := (req, Accepted(ack));
    assert p in states[n].responses ==> ResponseOk(states[n], p.0, p.1);
  }

  ghost predicate OwnedByAccepted(s: State, m: MeasurementRow) {
    exists row :: row in s.db.requests && OwnedBy(m, row) && WasAccepted(s, row)
  }

  ghost predicate AnnouncesAccepted(s: State, e: EventRow) {
    exists row :: row in s.db.requests && WasAccepted(s, row) && e == EventRow(row.id, row.response.value)
  }

  /**
   Rejected requests leave nothing behind: a request answered with a conflict has no row, and every measurement
   and every event belongs to a request that was accepted.
   */
  lemma RejectedLeavesNothing(states: seq<State>, steps: seq<Step>, n: nat, req: Request)
    requires IsRun(states, steps) && n < |states|
    ensures (req, Conflict) in states[n].responses ==>
              forall row :: row in states[n].db.requests ==> Request(row.device, row.key, row.body) != req
    ensures forall m :: m in states[n].db.measurements ==> OwnedByAccepted(states[n], m)
    ensures forall e :: e in states[n].db.events ==> AnnouncesAccepted(states[n], e)
  {
    var s := states[n];
    RunInv(states, steps, n);
    RowsAccepted(states, steps, n);
    if (req, Conflict) in s.responses {
      var p := (req, Conflict);
      assert p in s.responses && ResponseOk(s, p.0, p.1);
      forall row | row in s.db.requests ensures Request(row.device, row.key, row.body) != req {
        if Request(row.device, row.key, row.body) == req {
          assert RequestOk(s.db, row) && HasAnswer(s.db, req, row.response.value);
          AnswerExcludesRival(s.db, req, row.response.value);
        }
      }
    }
    forall m | m in s.db.measurements ensures OwnedByAccepted(s, m) {
      assert HasOwner(s.db, m);
      var row :| row in s.db.requests && OwnedBy(m, row);
      assert WasAccepted(s, row);
    }
    forall e | e in s.db.events ensures AnnouncesAccepted(s, e) {
      var i :| 0 <= i < |s.db.events| && s.db.events[i] == e;
      assert e == EventRow(s.db.requests[i].id, s.db.requests[i].response.value) && WasAccepted(s, s.db.requests[i]);
    }
  }

  /** Summed over its committed requests, a device's `accepted` counts equal its stored measurements. */
  lemma AcceptedEqualsStored(states: seq<State>, steps: seq<Step>, n: nat, device: string)
    requires IsRun(states, steps) && n < |states|
    ensures SumAccepted(states[n].db.requests, device) == CountRows(states[n].db.measurements, device)
  {
    RunInv(states, steps, n);
  }

  /** The steps that take a one-reading request, new in every way, from its start to its commit. */
  lemma OneReadingSteps(s: State, t: nat, id: nat) returns (s1: State, s2: State, s3: State, s4: State)
    requires t in s.txs && s.txs[t].phase.Started? && id !in s.ids && |s.txs[t].req.body.readings| == 1
    requires forall u :: u in s.txs ==> s.txs[u].phase.Started?
    requires var req := s.txs[t].req;
             && Find(s.db.requests, req.device, req.key).None?
             && !Has(s.db.measurements, req.device, req.body.readings[0].sequence)
    ensures Next(s, Reserve(t, id), s1) && Next(s1, Insert(t), s2) && Next(s2, Stage(t), s3) && Next(s3, Commit(t), s4)
    ensures var req := s.txs[t].req;
            && s4.txs == s.txs - {t} && s4.ids == s.ids + {id} && s4.begun == s.begun
            && s4.last == LastAfter(s.last, s.txs[t])
            && s4.db == Committed(s.db, id, req, [MeasurementRow(req.device, id, req.body.readings[0])])
            && s4.responses == s.responses + {(req, Accepted(AckFor(id, req, 1)))}
  {
    var tx := s.txs[t];
    var row := MeasurementRow(tx.req.device, id, tx.req.body.readings[0]);
    s1 := WithPhase(s, t, Holding(id, 0, [], false)).(ids := s.ids + {id});
    s2 := WithPhase(s1, t, Holding(id, 1, [row], false));
    s3 := WithPhase(s2, t, Holding(id, 1, [row], true));
    s4 := Finish(s3, t, Accepted(AckFor(id, tx.req, 1)))
          .(db := Committed(s.db, id, tx.req, [row]), last := LastAfter(s.last, s3.txs[t]),
            log := s.log + [(id, tx.req)]);
    assert s.db.measurements + [] == s.db.measurements;
    assert [] + [row] == [row];
    assert s4.txs == s.txs - {t};
  }
}
