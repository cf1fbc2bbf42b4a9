/**
 Several outbox workers and an administrator, interleaved.  Claiming is a transaction of two steps: the query
 locks its rows, skipping those locked by other open claims, and the commit writes them.  Publishing happens
 outside any transaction; settling waits for locks and checks ownership.  A worker may crash anywhere.
 `delivered` and `history` record the past; only `rows` is the database.  Worker names are those of live
 workers, each single-threaded, whose own clock does not run backwards within one pass.
 */
module OutboxWorkers {
  import opened Common
  import opened Outbox
  import Ingestion

  datatype Attempt = NotTried | Succeeded | Raised(error: string)

  datatype Worker =
    | Resting
    | Selecting(ids: seq<EventId>, at: int)
    | Running(ids: seq<EventId>, at: int, pos: nat, attempt: Attempt)

  /** Replays of an event, and its first and latest recorded failures. */
  datatype History = History(replays: nat, firstFailure: int, lastFailure: int)

  datatype Settings = Settings(timeoutSeconds: nat, limit: nat, maxAttempts: nat)

  datatype State = State(
    rows: Rows, workers: map<string, Worker>, delivered: set<EventId>, history: map<EventId, History>)

  datatype Step =
    | Add(id: EventId, payload: Ingestion.Ack, now: int)
    | Select(w: string, ids: seq<EventId>, at: int)
    | CommitClaim(w: string)
    | CallPublisher(w: string, attempt: Attempt)
    | Settle(w: string, now: int)
    | Finish(w: string)
    | Crash(w: string)
    | ReplayDead(id: EventId, now: int)

  const INITIAL := State(map[], map[], {}, map[])

  function WorkerOf(s: State, w: string): Worker {
    if w in s.workers then s.workers[w] else Resting
  }

  const NEW_HISTORY := History(0, 0, 0)

  function HistoryOf(s: State, id: EventId): History {
    if id in s.history then s.history[id] else NEW_HISTORY
  }

  function With(s: State, w: string, worker: Worker): State {
    s.(workers := s.workers[w := worker])
  }

  /** The rows held by open claim transactions. */
  ghost function LockedIds(s: State): set<EventId> {
    set w, id | w in s.workers && s.workers[w].Selecting? && id in s.workers[w].ids :: id
  }

  function AfterSettle(row: Row, worker: string, attempt: Attempt, maxAttempts: int, now: int): Row {
    match attempt
    case NotTried => row
    case Succeeded => Publish(row, now)
    case Raised(e) => Fail(row, e, maxAttempts, now)
  }

  function Recorded(h: History, row: Row, attempt: Attempt, now: int): History {
    if attempt.Raised? then h.(firstFailure := if row.attempts == 0 then now else h.firstFailure, lastFailure := now)
    else h
  }

  ghost predicate Next(c: Settings, s: State, step: Step, s': State) {
    match step
    case Add(id, payload, now) =>
      && id !in s.rows
      && s' == s.(rows := s.rows[id := NewRow(payload, now)], history := s.history[id := NEW_HISTORY])
    case Select(w, ids, at) =>
      && WorkerOf(s, w).Resting?
      && Selected(s.rows, LockedIds(s), at, c.timeoutSeconds, c.limit, ids)
      && s' == With(s, w, Selecting(ids, at))
    case CommitClaim(w) =>
      && WorkerOf(s, w).Selecting?
      && var Selecting(ids, at) := WorkerOf(s, w);
      && s' == With(s, w, Running(ids, at, 0, NotTried)).(rows := ClaimAll(s.rows, ids, w, at))
    case CallPublisher(w, attempt) =>
      && WorkerOf(s, w).Running? && !attempt.NotTried?
      && var Running(ids, at, pos, tried) := WorkerOf(s, w);
      && pos < |ids| && tried.NotTried?
      && s' == With(s, w, Running(ids, at, pos, attempt))
               .(delivered := if attempt.Succeeded? then s.delivered + {ids[pos]} else s.delivered)
    case Settle(w, now) =>
      && WorkerOf(s, w).Running?
      && var Running(ids, at, pos, attempt) := WorkerOf(s, w);
      && pos < |ids| && !attempt.NotTried? && at <= now
      && ids[pos] !in LockedIds(s)
      && var moved := With(s, w, Running(ids, at, pos + 1, NotTried));
      && if ids[pos] in s.rows && LockedBy(s.rows[ids[pos]], w)
         then
           var id := ids[pos];
           s' == moved.(rows := s.rows[id := AfterSettle(s.rows[id], w, attempt, c.maxAttempts, now)],
                        history := s.history[id := Recorded(HistoryOf(s, id), s.rows[id], attempt, now)])
         else s' == moved
    case Finish(w) =>
      && WorkerOf(s, w).Running? && WorkerOf(s, w).pos == |WorkerOf(s, w).ids|
      && s' == With(s, w, Resting)
    case Crash(w) =>
      && w in s.workers && s' == With(s, w, Resting)
    case ReplayDead(id, now) =>
      && id in s.rows && s.rows[id].status.Dead? && id !in LockedIds(s)
      && s' == s.(rows := s.rows[id := Replay(s.rows[id], now)],
                  history := s.history[id := HistoryOf(s, id).(replays := HistoryOf(s, id).replays + 1)])
  }

  ghost predicate IsRun(c: Settings, states: seq<State>, steps: seq<Step>) {
    && c.maxAttempts >= 1
    && |states| == |steps| + 1
    && states[0] == INITIAL
    && forall i :: 0 <= i < |steps| ==> Next(c, states[i], steps[i], states[i + 1])
  }

  // ---- invariant ----

  /** Attempt counts, and the time the back-off has forced to pass between the recorded failures. */
  ghost predicate RetryOk(c: Settings, row: Row, h: History) {
    && row.attempts <= c.maxAttempts + h.replays - (if row.status.Dead? then 0 else 1)
    && (row.status.Dead? ==> row.attempts >= c.maxAttempts)
    && (h.replays == 0 && row.attempts > 0 ==>
          && h.lastFailure - h.firstFailure >= DelaysSeconds(row.attempts) * SECOND
          && (row.status.Pending? ==> row.availableAt == h.lastFailure + BackoffSeconds(row.attempts) * SECOND)
          && (row.status.Processing? ==>
                row.lockedAt.GetOr(0) >= h.lastFailure + BackoffSeconds(row.attempts) * SECOND))
  }

  ghost predicate EventOk(c: Settings, s: State, id: EventId) {
    && id in s.rows && id in s.history
    && RowOk(s.rows[id])
    && RetryOk(c, s.rows[id], s.history[id])
    && (s.rows[id].status.Published? ==> id in s.delivered)
  }

  ghost predicate Distinct(ids: seq<EventId>) {
    forall i, j :: 0 <= i < j < |ids| ==> ids[i] != ids[j]
  }

  /** A row locked in this worker's name is locked since this worker's own, latest claim. */
  ghost predicate OwnClaim(s: State, w: string, ids: seq<EventId>, at: int, pos: nat) {
    forall i :: pos <= i < |ids| && ids[i] in s.rows && LockedBy(s.rows[ids[i]], w) ==>
      s.rows[ids[i]].lockedAt == Some(at)
  }

  ghost predicate WorkerOk(c: Settings, s: State, w: string, worker: Worker) {
    match worker
    case Resting => true
    case Selecting(ids, at) =>
      && Distinct(ids)
      && forall id :: id in ids ==> id in s.rows && Claimable(s.rows[id], at, c.timeoutSeconds)
    case Running(ids, at, pos, attempt) =>
      && Distinct(ids) && pos <= |ids|
      && (!attempt.NotTried? ==> pos < |ids|)
      && (attempt.Succeeded? ==> ids[pos] in s.delivered)
      && OwnClaim(s, w, ids, at, pos)
  }

  /** Open claim transactions hold disjoint rows. */
  ghost predicate Exclusive(s: State) {
    forall v, w :: v in s.workers && w in s.workers && v != w && s.workers[v].Selecting? && s.workers[w].Selecting? ==>
      forall id :: id in s.workers[v].ids ==> id !in s.workers[w].ids
  }

  ghost predicate Inv(c: Settings, s: State) {
    && s.history.Keys == s.rows.Keys
    && (forall id :: id in s.rows ==> EventOk(c, s, id))
    && (forall w :: w in s.workers ==> WorkerOk(c, s, w, s.workers[w]))
    && Exclusive(s)
  }

  // ---- preservation, one row at a time ----

  lemma ClaimKeepsRetry(c: Settings, row: Row, h: History, w: string, at: int)
    requires c.maxAttempts >= 1 && RowOk(row) && RetryOk(c, row, h) && Claimable(row, at, c.timeoutSeconds)
    ensures RowOk(Claim(row, w, at)) && RetryOk(c, Claim(row, w, at), h)
  {
  }

  lemma FailKeepsRetry(c: Settings, row: Row, h: History, error: string, now: int)
    requires c.maxAttempts >= 1 && RowOk(row) && RetryOk(c, row, h) && row.status.Processing?
    requires row.lockedAt.GetOr(0) <= now
    ensures RowOk(Fail(row, error, c.maxAttempts, now))
    ensures RetryOk(c, Fail(row, error, c.maxAttempts, now), Recorded(h, row, Raised(error), now))
  {
    if row.attempts > 0 {
      BackoffIsPower(row.attempts);
      assert DelaysSeconds(row.attempts + 1) == DelaysSeconds(row.attempts) + BackoffSeconds(row.attempts);
    }
  }

  lemma SettleKeepsEvent(c: Settings, s: State, w: string, now: int, s': State)
    requires c.maxAttempts >= 1 && Inv(c, s) && Next(c, s, Settle(w, now), s')
    ensures var id := WorkerOf(s, w).ids[WorkerOf(s, w).pos]; id in s'.rows ==> EventOk(c, s', id)
  {
    var worker := WorkerOf(s, w);
    assert WorkerOk(c, s, w, worker);
    var id := worker.ids[worker.pos];
    if id in s.rows {
      assert EventOk(c, s, id);
      if LockedBy(s.rows[id], w) && worker.attempt.Raised? {
        FailKeepsRetry(c, s.rows[id], s.history[id], worker.attempt.error, now);
      }
    }
  }

  /** What a step may do to the other workers' claims: rows they still have to settle keep their lock or lose it. */
  ghost predicate LocksOnlyBy(s: State, s': State, w: string) {
    forall id :: id in s'.rows && s'.rows[id].lockedBy.Some? && s'.rows[id].lockedBy != Some(w) ==>
      id in s.rows && s'.rows[id] == s.rows[id]
  }

  lemma OwnClaimStays(s: State, s': State, w: string, v: string, ids: seq<EventId>, at: int, pos: nat)
    requires OwnClaim(s, v, ids, at, pos) && LocksOnlyBy(s, s', w) && v != w
    ensures OwnClaim(s', v, ids, at, pos)
  {
  }

  lemma SelectKeepsInv(c: Settings, s: State, w: string, ids: seq<EventId>, at: int, s': State)
    requires c.maxAttempts >= 1 && Inv(c, s) && Next(c, s, Select(w, ids, at), s')
    ensures Inv(c, s')
  {
    forall i, j | 0 <= i < j < |ids| ensures ids[i] != ids[j] {
      assert Before(s.rows, ids[i], ids[j]);
    }
    forall id | id in ids ensures id in s.rows && id !in LockedIds(s) && Claimable(s.rows[id], at, c.timeoutSeconds) {
      var i :| 0 <= i < |ids| && ids[i] == id;
      assert Candidate(s.rows, LockedIds(s), at, c.timeoutSeconds, ids[i]);
    }
    forall id | id in s'.rows ensures EventOk(c, s', id) {
      assert EventOk(c, s, id);
    }
    forall v | v in s'.workers ensures WorkerOk(c, s', v, s'.workers[v]) {
      assert v != w ==> WorkerOk(c, s, v, s.workers[v]);
    }
  }

  /** A claim's commit writes only rows no other open claim holds, and locks them in its own worker's name. */
  lemma CommitSpares(c: Settings, s: State, w: string, s': State, v: string)
    requires Inv(c, s) && Next(c, s, CommitClaim(w), s') && v in s.workers && v != w
    ensures WorkerOk(c, s', v, s.workers[v])
  {
    var ids := WorkerOf(s, w).ids;
    assert WorkerOk(c, s, v, s.workers[v]);
    match s.workers[v] {
      case Resting =>
      case Selecting(held, since) =>
        forall id | id in held ensures id in s'.rows && Claimable(s'.rows[id], since, c.timeoutSeconds) {
          assert id !in ids;
        }
      case Running(held, since, pos, attempt) =>
        assert LocksOnlyBy(s, s', w);
        OwnClaimStays(s, s', w, v, held, since, pos);
    }
  }

  lemma CommitKeepsInv(c: Settings, s: State, w: string, s': State)
    requires c.maxAttempts >= 1 && Inv(c, s) && Next(c, s, CommitClaim(w), s')
    ensures Inv(c, s')
  {
    var ids, at := WorkerOf(s, w).ids, WorkerOf(s, w).at;
    assert WorkerOk(c, s, w, s.workers[w]);
    forall id | id in s'.rows ensures EventOk(c, s', id) {
      assert EventOk(c, s, id);
      if id in ids {
        ClaimKeepsRetry(c, s.rows[id], s.history[id], w, at);
      }
    }
    forall v | v in s'.workers ensures WorkerOk(c, s', v, s'.workers[v]) {
      if v != w {
        CommitSpares(c, s, w, s', v);
      }
    }
  }

  /** Settling touches a row no open claim holds, and takes no lock. */
  lemma SettleSpares(c: Settings, s: State, w: string, now: int, s': State, v: string)
    requires Inv(c, s) && Next(c, s, Settle(w, now), s') && v in s.workers && v != w
    ensures WorkerOk(c, s', v, s.workers[v])
  {
    var settled := WorkerOf(s, w).ids[WorkerOf(s, w).pos];
    assert WorkerOk(c, s, v, s.workers[v]);
    match s.workers[v] {
      case Resting =>
      case Selecting(held, since) =>
        assert settled !in held by {
          assert settled !in LockedIds(s);
        }
      case Running(held, since, pos, attempt) =>
        assert LocksOnlyBy(s, s', w);
        OwnClaimStays(s, s', w, v, held, since, pos);
    }
  }

  lemma SettleKeepsInv(c: Settings, s: State, w: string, now: int, s': State)
    requires c.maxAttempts >= 1 && Inv(c, s) && Next(c, s, Settle(w, now), s')
    ensures Inv(c, s')
  {
    var worker := WorkerOf(s, w);
    var settled := worker.ids[worker.pos];
    SettleKeepsEvent(c, s, w, now, s');
    forall id | id in s'.rows ensures EventOk(c, s', id) {
      assert EventOk(c, s, id);
    }
    assert WorkerOk(c, s, w, worker);
    forall v | v in s'.workers ensures WorkerOk(c, s', v, s'.workers[v]) {
      if v != w {
        SettleSpares(c, s, w, now, s', v);
      }
    }
  }

  /** Steps of one worker that leave the table alone. */
  lemma QuietKeepsInv(c: Settings, s: State, step: Step, s': State)
    requires c.maxAttempts >= 1 && Inv(c, s) && Next(c, s, step, s')
    requires step.CallPublisher? || step.Finish? || step.Crash?
    ensures Inv(c, s')
  {
    forall id | id in s'.rows ensures EventOk(c, s', id) {
      assert EventOk(c, s, id);
    }
    forall v | v in s'.workers ensures WorkerOk(c, s', v, s'.workers[v]) {
      assert WorkerOk(c, s, v, WorkerOf(s, v));
    }
  }

  /** A new event, or the replay of a dead one: rows no open claim holds and no worker owns. */
  lemma AdministrationKeepsInv(c: Settings, s: State, step: Step, s': State)
    requires c.maxAttempts >= 1 && Inv(c, s) && Next(c, s, step, s')
    requires step.Add? || step.ReplayDead?
    ensures Inv(c, s')
  {
    forall id | id in s'.rows ensures EventOk(c, s', id) {
      assert id in s.rows ==> EventOk(c, s, id);
    }
    forall v | v in s'.workers ensures WorkerOk(c, s', v, s'.workers[v]) {
      assert WorkerOk(c, s, v, s.workers[v]);
      if s.workers[v].Selecting? {
        assert step.id !in s.workers[v].ids by {
          assert step.ReplayDead? ==> step.id !in LockedIds(s);
        }
      }
    }
  }

  lemma StepKeepsInv(c: Settings, s: State, step: Step, s': State)
    requires c.maxAttempts >= 1 && Inv(c, s) && Next(c, s, step, s')
    ensures Inv(c, s')
  {
    match step {
      case Select(w, ids, at) => SelectKeepsInv(c, s, w, ids, at, s');
      case CommitClaim(w) => CommitKeepsInv(c, s, w, s');
      case Settle(w, now) => SettleKeepsInv(c, s, w, now, s');
      case Add(_, _, _) => AdministrationKeepsInv(c, s, step, s');
      case ReplayDead(_, _) => AdministrationKeepsInv(c, s, step, s');
      case _ => QuietKeepsInv(c, s, step, s');
    }
  }

  lemma {:induction false} RunInv(c: Settings, states: seq<State>, steps: seq<Step>, n: nat)
    requires IsRun(c, states, steps) && n < |states|
    ensures Inv(c, states[n])
  {
    if n == 0 {
    } else {
      RunInv(c, states, steps, n - 1);
      assert Next(c, states[n - 1], steps[n - 1], states[n]);
      StepKeepsInv(c, states[n - 1], steps[n - 1], states[n]);
    }
  }

  // ---- main results, over every run ----

  /** The row's lock fields and publication time always say what its status says; published means delivered. */
  lemma RowsConsistent(c: Settings, states: seq<State>, steps: seq<Step>, n: nat, id: EventId)
    requires IsRun(c, states, steps) && n < |states| && id in states[n].rows
    ensures var row := states[n].rows[id];
            && (row.status.Processing? <==> row.lockedAt.Some?) && (row.status.Processing? <==> row.lockedBy.Some?)
            && (row.status.Published? <==> row.publishedAt.Some?)
            && (row.status.Published? ==> id in states[n].delivered)
  {
    RunInv(c, states, steps, n);
    assert EventOk(c, states[n], id);
  }

  /** Claim transactions open at the same time hold disjoint sets of events. */
  lemma OpenClaimsDisjoint(c: Settings, states: seq<State>, steps: seq<Step>, n: nat, v: string, w: string, id: EventId)
    requires IsRun(c, states, steps) && n < |states| && v != w
    requires WorkerOf(states[n], v).Selecting? && WorkerOf(states[n], w).Selecting?
    requires id in WorkerOf(states[n], v).ids
    ensures id !in WorkerOf(states[n], w).ids
  {
    RunInv(c, states, steps, n);
  }

  lemma StepKeepsPublished(c: Settings, s: State, step: Step, s': State, id: EventId)
    requires Inv(c, s) && Next(c, s, step, s') && id in s.rows
    ensures id in s'.rows && s'.rows[id].payload == s.rows[id].payload
    ensures s.rows[id].status.Published? ==> s'.rows[id] == s.rows[id]
  {
    if step.CommitClaim? {
      assert WorkerOk(c, s, step.w, s.workers[step.w]);
      assert id in s.workers[step.w].ids ==> Claimable(s.rows[id], s.workers[step.w].at, c.timeoutSeconds);
    }
  }

  /** An event never disappears, keeps its payload, and once published never changes again. */
  lemma PublishedIsFinal(c: Settings, states: seq<State>, steps: seq<Step>, m: nat, n: nat, id: EventId)
    requires IsRun(c, states, steps) && m <= n < |states| && id in states[m].rows
    ensures id in states[n].rows && states[n].rows[id].payload == states[m].rows[id].payload
    ensures states[m].rows[id].status.Published? ==> states[n].rows[id] == states[m].rows[id]
    decreases n
  {
    if m == n {
    } else {
      PublishedIsFinal(c, states, steps, m, n - 1, id);
      RunInv(c, states, steps, n - 1);
      assert Next(c, states[n - 1], steps[n - 1], states[n]);
      StepKeepsPublished(c, states[n - 1], steps[n - 1], states[n], id);
    }
  }

  /**
   Only a worker that holds the event's current lock, taken by its own latest claim, settles it; a claim of an
   event still locked comes at least the lock timeout after the claim that locked it.
   */
  lemma OnlyOwnerSettles(c: Settings, states: seq<State>, steps: seq<Step>, n: nat, id: EventId)
    requires IsRun(c, states, steps) && n < |steps| && id in states[n].rows
    requires states[n].rows[id].status.Processing? && states[n + 1].rows[id] != states[n].rows[id]
    ensures steps[n].Settle? || steps[n].CommitClaim?
    ensures var row, worker := states[n].rows[id], WorkerOf(states[n], steps[n].w);
            && (steps[n].Settle? ==>
                  worker.Running? && row.lockedBy == Some(steps[n].w) && row.lockedAt == Some(worker.at))
            && (steps[n].CommitClaim? ==>
                  && worker.Selecting? && row.lockedAt.Some?
                  && worker.at - row.lockedAt.value >= c.timeoutSeconds * SECOND)
  {
    RunInv(c, states, steps, n);
    var s, step, s' := states[n], steps[n], states[n + 1];
    assert Next(c, s, step, s') && EventOk(c, s, id);
    if step.CommitClaim? || step.Settle? {
      assert WorkerOk(c, s, step.w, s.workers[step.w]);
    }
  }

  /** This step is the commit of a claim of the event, made at time `at`. */
  ghost predicate Claims(s: State, step: Step, id: EventId, at: int) {
    && step.CommitClaim? && WorkerOf(s, step.w).Selecting?
    && id in WorkerOf(s, step.w).ids && WorkerOf(s, step.w).at == at
  }

  /** This step records the outcome of the event's current claim. */
  ghost predicate Settles(s: State, step: Step, id: EventId) {
    && step.Settle? && WorkerOf(s, step.w).Running?
    && var worker := WorkerOf(s, step.w);
    && worker.pos < |worker.ids| && worker.ids[worker.pos] == id
    && id in s.rows && s.rows[id].status == Processing && s.rows[id].lockedBy == Some(step.w)
  }

  ghost predicate HeldSince(s: State, id: EventId, at: int) {
    && id in s.rows && s.rows[id].status.Processing?
    && s.rows[id].lockedAt.Some? && s.rows[id].lockedAt.value >= at
  }

  lemma ClaimHolds(c: Settings, s: State, step: Step, s': State, id: EventId, at: int)
    requires Inv(c, s) && Next(c, s, step, s') && Claims(s, step, id, at)
    ensures HeldSince(s', id, at)
    ensures id in s.rows && Claimable(s.rows[id], at, c.timeoutSeconds)
  {
    assert WorkerOk(c, s, step.w, s.workers[step.w]);
  }

  lemma StepHolds(c: Settings, s: State, step: Step, s': State, id: EventId, at: int)
    requires Inv(c, s) && Next(c, s, step, s') && HeldSince(s, id, at) && !Settles(s, step, id)
    ensures HeldSince(s', id, at)
  {
    if step.CommitClaim? {
      assert WorkerOk(c, s, step.w, s.workers[step.w]);
    }
  }

  /** Until its claim is settled an event stays locked, since that claim or a later one. */
  lemma {:induction false} HeldBetween(
    c: Settings, states: seq<State>, steps: seq<Step>, i: nat, j: nat, id: EventId, at: int)
    requires IsRun(c, states, steps) && i < j <= |steps| && Claims(states[i], steps[i], id, at)
    requires forall k :: i < k < j ==> !Settles(states[k], steps[k], id)
    ensures HeldSince(states[j], id, at)
  {
    RunInv(c, states, steps, j - 1);
    assert Next(c, states[j - 1], steps[j - 1], states[j]);
    if j == i + 1 {
      ClaimHolds(c, states[i], steps[i], states[j], id, at);
    } else {
      HeldBetween(c, states, steps, i, j - 1, id, at);
      StepHolds(c, states[j - 1], steps[j - 1], states[j], id, at);
    }
  }

  /** Two claims of one event with no settlement between them are at least the lock timeout apart. */
  lemma ClaimsApart(c: Settings, states: seq<State>, steps: seq<Step>, i: nat, j: nat, id: EventId, a: int, b: int)
    requires IsRun(c, states, steps) && i < j < |steps|
    requires Claims(states[i], steps[i], id, a) && Claims(states[j], steps[j], id, b)
    requires forall k :: i < k < j ==> !Settles(states[k], steps[k], id)
    ensures b - a >= c.timeoutSeconds * SECOND
  {
    HeldBetween(c, states, steps, i, j, id, a);
    RunInv(c, states, steps, j);
    assert Next(c, states[j], steps[j], states[j + 1]);
    ClaimHolds(c, states[j], steps[j], states[j + 1], id, b);
  }

  /**
   No event is passed over: a claiming query takes every unfinished event that is due and not locked, unless
   events created no later fill its limit; and it takes no other.
   */
  lemma DueIsTaken(c: Settings, states: seq<State>, steps: seq<Step>, n: nat, id: EventId)
    requires IsRun(c, states, steps) && n < |steps| && steps[n].Select? && id in states[n].rows
    ensures var row, ids := states[n].rows[id], steps[n].ids;
            var due := (row.status == Pending && row.availableAt <= steps[n].at)
                       || (row.status == Processing && row.lockedAt.Some?
                           && steps[n].at - row.lockedAt.value >= c.timeoutSeconds * 1_000_000);
            && (id in ids ==> due && id !in LockedIds(states[n]))
            && (due && id !in LockedIds(states[n]) && id !in ids ==>
                  && |ids| == c.limit
                  && forall i :: 0 <= i < |ids| ==>
                       && ids[i] in states[n].rows
                       && (states[n].rows[ids[i]].createdAt < row.createdAt
                           || (states[n].rows[ids[i]].createdAt == row.createdAt && ids[i] < id)))
  {
    assert Next(c, states[n], steps[n], states[n + 1]);
    OldestFirst(states[n].rows, LockedIds(states[n]), steps[n].at, c.timeoutSeconds, c.limit, steps[n].ids);
    if id in steps[n].ids {
      var i :| 0 <= i < |steps[n].ids| && steps[n].ids[i] == id;
      assert Due(states[n].rows, LockedIds(states[n]), steps[n].at, c.timeoutSeconds, steps[n].ids[i]);
    } else {
      assert Due(states[n].rows, LockedIds(states[n]), steps[n].at, c.timeoutSeconds, id)
             || id in LockedIds(states[n]) || !Claimable(states[n].rows[id], steps[n].at, c.timeoutSeconds);
    }
  }

  /** An event fails at most `maxAttempts` times more than it was replayed; it is dead only after that many failures. */
  lemma RetriesBounded(c: Settings, states: seq<State>, steps: seq<Step>, n: nat, id: EventId)
    requires IsRun(c, states, steps) && n < |states| && id in states[n].rows
    ensures id in states[n].history
    ensures states[n].rows[id].attempts <= c.maxAttempts + states[n].history[id].replays
    ensures states[n].rows[id].status.Dead? ==> states[n].rows[id].attempts >= c.maxAttempts
  {
    RunInv(c, states, steps, n);
    assert EventOk(c, states[n], id);
  }

  /** What the commit of a claim writes: its events, in this worker's name since the claim, and nothing else. */
  lemma ClaimWrites(c: Settings, s: State, step: Step, s': State, id: EventId)
    requires Next(c, s, step, s') && step.CommitClaim? && id in s.rows
    ensures id in s'.rows
    ensures var row, worker := s.rows[id], WorkerOf(s, step.w);
            s'.rows[id] == if id in worker.ids
                           then Row(row.createdAt, row.payload, Processing, row.attempts, row.availableAt,
                                    Some(worker.at), Some(step.w), row.publishedAt, row.lastError)
                           else row
  {
  }

  /** What a replay writes: the dead event, due at once, with its attempts and error kept. */
  lemma ReplayWrites(c: Settings, s: State, step: Step, s': State, id: EventId)
    requires Next(c, s, step, s') && step.ReplayDead? && id in s.rows
    ensures id in s'.rows
    ensures var row := s.rows[id];
            s'.rows[id] == if id == step.id
                           then Row(row.createdAt, row.payload, Pending, row.attempts, step.now,
                                    None, None, row.publishedAt, row.lastError)
                           else row
  {
  }

  /** What a settlement by the holder of the lock writes, by the outcome of its publish call. */
  lemma SettlesByOutcome(c: Settings, s: State, step: Step, s': State, id: EventId)
    requires Next(c, s, step, s') && Settles(s, step, id)
    ensures id in s'.rows
    ensures var row, attempts := s.rows[id], s.rows[id].attempts + 1;
            match WorkerOf(s, step.w).attempt
            case NotTried => false
            case Succeeded =>
              s'.rows[id] == Row(row.createdAt, row.payload, Published, row.attempts, row.availableAt,
                                 None, None, Some(step.now), None)
            case Raised(e) =>
              && s'.rows[id].attempts == attempts
              && (attempts >= c.maxAttempts ==> s'.rows[id].status == Dead)
              && (attempts < c.maxAttempts ==>
                    && s'.rows[id].status == Pending
                    && s'.rows[id].availableAt == step.now + Power2(Min(attempts, 8)) * 1_000_000)
              && s'.rows[id].lockedAt == None && s'.rows[id].lockedBy == None
  {
    if WorkerOf(s, step.w).attempt.Raised? {
      BackoffIsPower(s.rows[id].attempts + 1);
    }
  }

  /** This step calls the publisher for the event, and the call succeeds. */
  ghost predicate Publishes(s: State, step: Step, id: EventId) {
    && step.CallPublisher? && step.attempt == Succeeded && WorkerOf(s, step.w).Running?
    && var worker := WorkerOf(s, step.w);
    && worker.pos < |worker.ids| && worker.ids[worker.pos] == id
  }

  /** This step records a failure of the event at time `now`. */
  ghost predicate FailsAt(s: State, step: Step, id: EventId, now: int) {
    Settles(s, step, id) && WorkerOf(s, step.w).attempt.Raised? && step.now == now
  }

  ghost predicate HasFailed(states: seq<State>, steps: seq<Step>, n: nat, id: EventId, now: int)
    requires n <= |steps| <= |states|
  {
    exists i :: 0 <= i < n && FailsAt(states[i], steps[i], id, now)
  }

  ghost predicate WasPublished(states: seq<State>, steps: seq<Step>, n: nat, id: EventId)
    requires n <= |steps| <= |states|
  {
    exists i :: 0 <= i < n && Publishes(states[i], steps[i], id)
  }

  function Replays(steps: seq<Step>, id: EventId): nat {
    if |steps| == 0 then 0
    else
      var last := steps[|steps| - 1];
      Replays(steps[..|steps| - 1], id) + (if last.ReplayDead? && last.id == id then 1 else 0)
  }

  /** The bookkeeping of the event agrees with the steps that were taken. */
  ghost predicate Recounts(states: seq<State>, steps: seq<Step>, n: nat, id: EventId)
    requires n <= |steps| && n < |states| && |steps| <= |states|
  {
    && (id in states[n].delivered ==> WasPublished(states, steps, n, id))
    && (id in states[n].rows && id in states[n].history ==>
          && states[n].history[id].replays == Replays(steps[..n], id)
          && (states[n].rows[id].attempts > 0 ==>
                && HasFailed(states, steps, n, id, states[n].history[id].firstFailure)
                && HasFailed(states, steps, n, id, states[n].history[id].lastFailure)))
    && (id !in states[n].rows ==> Replays(steps[..n], id) == 0)
  }

  /** The recorded failures are the old ones, or the latest, or even both, are this step's. */
  ghost predicate FailureRecounted(s: State, step: Step, s': State, id: EventId)
    requires id in s.rows && id in s.history && id in s'.history
  {
    var h, h' := s.history[id], s'.history[id];
    || (s.rows[id].attempts > 0 && h'.firstFailure == h.firstFailure && h'.lastFailure == h.lastFailure)
    || (FailsAt(s, step, id, h'.lastFailure)
        && (h'.firstFailure == h'.lastFailure
            || (s.rows[id].attempts > 0 && h'.firstFailure == h.firstFailure)))
  }

  /** What one step does to the bookkeeping of an event. */
  ghost predicate StepRecounts(s: State, step: Step, s': State, id: EventId) {
    && (id in s'.delivered ==> id in s.delivered || Publishes(s, step, id))
    && (id in s.rows ==> id in s'.rows && id in s.history && id in s'.history)
    && (step.ReplayDead? && step.id == id ==> id in s.rows)
    && (id in s'.rows && id !in s.rows ==>
          id in s'.history && s'.history[id].replays == 0 && s'.rows[id].attempts == 0)
    && (id in s.rows ==>
          s'.history[id].replays == s.history[id].replays + (if step.ReplayDead? && step.id == id then 1 else 0))
    && (id in s.rows && s'.rows[id].attempts > 0 ==> FailureRecounted(s, step, s', id))
  }

  lemma HistoryStep(c: Settings, s: State, step: Step, s': State, id: EventId)
    requires s.history.Keys == s.rows.Keys && s'.history.Keys == s'.rows.Keys && Next(c, s, step, s')
    ensures StepRecounts(s, step, s', id)
  {
  }

  lemma RunHistoryStep(c: Settings, states: seq<State>, steps: seq<Step>, n: nat, id: EventId)
    requires IsRun(c, states, steps) && n < |steps|
    ensures StepRecounts(states[n], steps[n], states[n + 1], id)
  {
    RunInv(c, states, steps, n);
    RunInv(c, states, steps, n + 1);
    HistoryStep(c, states[n], steps[n], states[n + 1], id);
  }

  lemma FailedBefore(states: seq<State>, steps: seq<Step>, n: nat, id: EventId, now: int)
    requires n < |steps| <= |states|
    requires HasFailed(states, steps, n, id, now) || FailsAt(states[n], steps[n], id, now)
    ensures HasFailed(states, steps, n + 1, id, now)
  {
    if HasFailed(states, steps, n, id, now) {
      var i :| 0 <= i < n && FailsAt(states[i], steps[i], id, now);
      assert i < n + 1 && FailsAt(states[i], steps[i], id, now);
    }
  }

  lemma PublishedBefore(states: seq<State>, steps: seq<Step>, n: nat, id: EventId)
    requires n < |steps| <= |states|
    requires WasPublished(states, steps, n, id) || Publishes(states[n], steps[n], id)
    ensures WasPublished(states, steps, n + 1, id)
  {
    if WasPublished(states, steps, n, id) {
      var i :| 0 <= i < n && Publishes(states[i], steps[i], id);
      assert i < n + 1 && Publishes(states[i], steps[i], id);
    }
  }

  lemma RecountsStep(states: seq<State>, steps: seq<Step>, n: nat, id: EventId)
    requires n < |steps| && |states| == |steps| + 1 && Recounts(states, steps, n, id)
    requires StepRecounts(states[n], steps[n], states[n + 1], id)
    ensures Recounts(states, steps, n + 1, id)
  {
    var s, s' := states[n], states[n + 1];
    assert steps[..n + 1][..n] == steps[..n];
    if id in s'.delivered {
      PublishedBefore(states, steps, n, id);
    }
    if id in s.rows && s'.rows[id].attempts > 0 {
      FailedBefore(states, steps, n, id, s'.history[id].firstFailure);
      FailedBefore(states, steps, n, id, s'.history[id].lastFailure);
    }
  }

  lemma {:induction false} HistoryIsTrue(c: Settings, states: seq<State>, steps: seq<Step>, n: nat, id: EventId)
    requires IsRun(c, states, steps) && n < |states|
    ensures Recounts(states, steps, n, id)
  {
    if n == 0 {
    } else {
      HistoryIsTrue(c, states, steps, n - 1, id);
      RunHistoryStep(c, states, steps, n - 1, id);
      RecountsStep(states, steps, n - 1, id);
    }
  }

  /** A published event has been published: some step before called the publisher for it, successfully. */
  lemma PublishedWasPublished(c: Settings, states: seq<State>, steps: seq<Step>, n: nat, id: EventId)
    requires IsRun(c, states, steps) && n < |states| && id in states[n].rows && states[n].rows[id].status.Published?
    ensures WasPublished(states, steps, n, id)
  {
    RunInv(c, states, steps, n);
    assert EventOk(c, states[n], id);
    HistoryIsTrue(c, states, steps, n, id);
  }

  /** An event that died without a replay had been retried for at least the sum of its back-offs. */
  lemma DeadAfterBackoff(c: Settings, states: seq<State>, steps: seq<Step>, n: nat, id: EventId)
    requires IsRun(c, states, steps) && n < |states| && id in states[n].rows && id in states[n].history
    requires states[n].rows[id].status.Dead? && states[n].history[id].replays == 0
    ensures states[n].rows[id].attempts == c.maxAttempts
    ensures var span := states[n].history[id].lastFailure - states[n].history[id].firstFailure;
            && (c.maxAttempts <= 9 ==> span >= (Power2(c.maxAttempts) - 2) * SECOND)
            && (c.maxAttempts > 9 ==> span >= (510 + 256 * (c.maxAttempts - 9)) * SECOND)
  {
    RunInv(c, states, steps, n);
    assert EventOk(c, states[n], id);
    DelaysClosedForm(c.maxAttempts);
  }

  /** In terms of the steps taken: such an event failed at two moments at least the summed back-offs apart. */
  lemma FailuresApart(c: Settings, states: seq<State>, steps: seq<Step>, n: nat, id: EventId) returns (a: int, b: int)
    requires IsRun(c, states, steps) && n < |states| && id in states[n].rows
    requires states[n].rows[id].status.Dead? && Replays(steps[..n], id) == 0
    ensures HasFailed(states, steps, n, id, a) && HasFailed(states, steps, n, id, b)
    ensures c.maxAttempts <= 9 ==> b - a >= (Power2(c.maxAttempts) - 2) * SECOND
    ensures c.maxAttempts > 9 ==> b - a >= (510 + 256 * (c.maxAttempts - 9)) * SECOND
  {
    RetriesBounded(c, states, steps, n, id);
    HistoryIsTrue(c, states, steps, n, id);
    DeadAfterBackoff(c, states, steps, n, id);
    a, b := states[n].history[id].firstFailure, states[n].history[id].lastFailure;
  }
}
