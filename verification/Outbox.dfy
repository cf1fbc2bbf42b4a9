/**
 The outbox table and the operations of a worker and of the administrator on it.
 Times are microseconds, the resolution of the stored timestamps.
 */
module Outbox {
  import opened Common
  import opened Ingestion

  type EventId = nat

  datatype Status = Pending | Processing | Published | Dead

  datatype Row = Row(
    createdAt: int, payload: Ack, status: Status, attempts: nat, availableAt: int,
    lockedAt: Option<int>, lockedBy: Option<string>, publishedAt: Option<int>, lastError: Option<string>)

  datatype ClaimedEvent = ClaimedEvent(id: EventId, payload: Ack)

  datatype ReplayError = UnknownEvent | NotDead(status: Status)

  type Rows = map<EventId, Row>

  const SECOND := 1_000_000

  function NewRow(payload: Ack, now: int): Row {
    Row(now, payload, Pending, 0, now, None, None, None, None)
  }

  function Power2(n: nat): nat {
    if n == 0 then 1 else 2 * Power2(n - 1)
  }

  function BackoffSeconds(attempts: nat): int {
    Min(300, Power2(Min(attempts, 8)))
  }

  function Truncate(text: string): string {
    if |text| > 2000 then text[..2000] else text
  }

  // ---- one row ----

  /** A row a worker may take: pending and due, or abandoned by a worker whose lock has gone stale. */
  predicate Claimable(row: Row, now: int, timeoutSeconds: nat) {
    || (row.status.Pending? && row.availableAt <= now)
    || (row.status.Processing? && row.lockedAt.Some? && row.lockedAt.value <= now - timeoutSeconds * SECOND)
  }

  function Claim(row: Row, worker: string, now: int): Row {
    row.(status := Processing, lockedAt := Some(now), lockedBy := Some(worker))
  }

  predicate LockedBy(row: Row, worker: string) {
    row.status.Processing? && row.lockedBy == Some(worker)
  }

  function Publish(row: Row, now: int): Row {
    row.(status := Published, publishedAt := Some(now), lockedAt := None, lockedBy := None, lastError := None)
  }

  function Fail(row: Row, error: string, maxAttempts: int, now: int): Row {
    var failed := row.(attempts := row.attempts + 1, lastError := Some(Truncate(error)),
                       lockedAt := None, lockedBy := None);
    if failed.attempts >= maxAttempts then failed.(status := Dead)
    else failed.(status := Pending, availableAt := now + BackoffSeconds(failed.attempts) * SECOND)
  }

  function Replay(row: Row, now: int): Row {
    row.(status := Pending, availableAt := now, lockedAt := None, lockedBy := None)
  }

  ghost predicate RowOk(row: Row) {
    && (row.status.Processing? <==> row.lockedAt.Some?)
    && (row.status.Processing? <==> row.lockedBy.Some?)
    && (row.status.Published? <==> row.publishedAt.Some?)
  }

  /** A new event is pending, untried, and due at once. */
  lemma NewRowDue(payload: Ack, now: int, timeoutSeconds: nat)
    ensures var row := NewRow(payload, now);
            && row == Row(now, payload, Pending, 0, now, None, None, None, None)
            && RowOk(row) && Claimable(row, now, timeoutSeconds)
  {
  }

  /** The moment from which a row that is neither published nor dead can be claimed. */
  function DueAt(row: Row, timeoutSeconds: nat): int {
    if row.status.Processing? then row.lockedAt.GetOr(0) + timeoutSeconds * SECOND else row.availableAt
  }

  /** Nothing gets stuck: an unfinished row is claimable exactly from its due time on, a finished one never. */
  lemma ClaimableExactly(row: Row, now: int, timeoutSeconds: nat)
    requires RowOk(row)
    ensures Claimable(row, now, timeoutSeconds) <==>
              !row.status.Published? && !row.status.Dead? && DueAt(row, timeoutSeconds) <= now
  {
  }

  // ---- back-off ----

  lemma {:induction false} Power2Monotone(a: nat, b: nat)
    requires a <= b
    ensures 0 < Power2(a) <= Power2(b)
  {
    if b == 0 {
    } else if b > a {
      Power2Monotone(a, b - 1);
    } else {
      Power2Monotone(a - 1, b - 1);
    }
  }

  lemma Power2Of8()
    ensures Power2(1) == 2 && Power2(8) == 256
  {
    assert Power2(4) == 16;
  }

  /** The cap of 300 never binds: the delay after the k-th failure is two to the min(k, 8). */
  lemma BackoffIsPower(attempts: nat)
    requires attempts >= 1
    ensures BackoffSeconds(attempts) == Power2(Min(attempts, 8))
    ensures 2 <= BackoffSeconds(attempts) <= 256
    ensures BackoffSeconds(attempts) <= BackoffSeconds(attempts + 1)
  {
    Power2Of8();
    Power2Monotone(1, Min(attempts, 8));
    Power2Monotone(Min(attempts, 8), Min(attempts + 1, 8));
    Power2Monotone(Min(attempts + 1, 8), 8);
  }

  /** The delays between the first and the `attempts`-th failure. */
  function DelaysSeconds(attempts: nat): nat {
    if attempts <= 1 then 0 else DelaysSeconds(attempts - 1) + Power2(Min(attempts - 1, 8))
  }

  lemma {:induction false} DelaysClosedForm(attempts: nat)
    requires attempts >= 1
    ensures attempts <= 9 ==> DelaysSeconds(attempts) == Power2(attempts) - 2
    ensures attempts > 9 ==> DelaysSeconds(attempts) == 510 + 256 * (attempts - 9)
  {
    if attempts == 1 {
    } else {
      DelaysClosedForm(attempts - 1);
      Power2Of8();
      assert attempts == 9 ==> Power2(9) == 512;
    }
  }

  // ---- which rows a claim takes ----

  /** The order of the claiming query: by creation time, then id. */
  predicate Before(rows: Rows, a: EventId, b: EventId)
    requires a in rows && b in rows
  {
    rows[a].createdAt < rows[b].createdAt || (rows[a].createdAt == rows[b].createdAt && a < b)
  }

  predicate Candidate(rows: Rows, locked: set<EventId>, now: int, timeoutSeconds: nat, id: EventId) {
    id in rows && id !in locked && Claimable(rows[id], now, timeoutSeconds)
  }

  ghost predicate InOrder(rows: Rows, ids: seq<EventId>) {
    && (forall i :: 0 <= i < |ids| ==> ids[i] in rows)
    && forall i, j :: 0 <= i < j < |ids| ==> Before(rows, ids[i], ids[j])
  }

  /**
   What the claiming query returns, `locked` being the rows other open transactions hold: candidates in order,
   at most `limit`, and a candidate is missing only when the limit is reached by candidates before it.
   */
  ghost predicate Selected(
    rows: Rows, locked: set<EventId>, now: int, timeoutSeconds: nat, limit: nat, ids: seq<EventId>)
  {
    && |ids| <= limit
    && (forall i :: 0 <= i < |ids| ==> Candidate(rows, locked, now, timeoutSeconds, ids[i]))
    && InOrder(rows, ids)
    && forall id :: Candidate(rows, locked, now, timeoutSeconds, id) && id !in ids ==>
         |ids| == limit && forall i :: 0 <= i < |ids| ==> Before(rows, ids[i], id)
  }

  lemma MissingFrom(rows: Rows, a: seq<EventId>, b: seq<EventId>, n: nat)
    requires n < |a| && n <= |b| && a[..n] == b[..n] && InOrder(rows, a)
    requires forall j :: n <= j < |b| ==> b[j] in rows && Before(rows, a[n], b[j])
    ensures a[n] !in b
  {
    forall j | 0 <= j < |b| ensures b[j] != a[n] {
      if j < n {
        assert b[j] == a[..n][j] == a[j] && Before(rows, a[j], a[n]);
      }
    }
  }

  lemma SameAt(
    rows: Rows, locked: set<EventId>, now: int, timeoutSeconds: nat, limit: nat, a: seq<EventId>, b: seq<EventId>,
    n: nat)
    requires Selected(rows, locked, now, timeoutSeconds, limit, a)
    requires Selected(rows, locked, now, timeoutSeconds, limit, b)
    requires n < |a| && n < |b| && a[..n] == b[..n]
    ensures a[n] == b[n]
  {
    if Before(rows, a[n], b[n]) {
      forall j | n <= j < |b| ensures Before(rows, a[n], b[j]) {
      }
      MissingFrom(rows, a, b, n);
    } else if Before(rows, b[n], a[n]) {
      forall j | n <= j < |a| ensures Before(rows, b[n], a[j]) {
      }
      MissingFrom(rows, b, a, n);
    }
  }

  /** A row that is pending and due, or whose lock is older than the timeout, and that no open transaction holds. */
  ghost predicate Due(rows: Rows, locked: set<EventId>, now: int, timeoutSeconds: nat, id: EventId) {
    && id in rows && id !in locked
    && ((rows[id].status == Pending && rows[id].availableAt <= now)
        || (rows[id].status == Processing && rows[id].lockedAt.Some?
            && now - rows[id].lockedAt.value >= timeoutSeconds * 1_000_000))
  }

  /**
   The query on the columns: only due rows, the oldest first and by id among rows of one moment; a due row is left
   out only when the limit is filled by rows created no later.
   */
  lemma OldestFirst(rows: Rows, locked: set<EventId>, now: int, timeoutSeconds: nat, limit: nat, ids: seq<EventId>)
    requires Selected(rows, locked, now, timeoutSeconds, limit, ids)
    ensures |ids| <= limit && forall i :: 0 <= i < |ids| ==> Due(rows, locked, now, timeoutSeconds, ids[i])
    ensures forall i, j :: 0 <= i < j < |ids| ==>
              || rows[ids[i]].createdAt < rows[ids[j]].createdAt
              || (rows[ids[i]].createdAt == rows[ids[j]].createdAt && ids[i] < ids[j])
    ensures forall id :: Due(rows, locked, now, timeoutSeconds, id) && id !in ids ==>
              && |ids| == limit
              && forall i :: 0 <= i < |ids| ==>
                   || rows[ids[i]].createdAt < rows[id].createdAt
                   || (rows[ids[i]].createdAt == rows[id].createdAt && ids[i] < id)
  {
    forall i | 0 <= i < |ids| ensures Due(rows, locked, now, timeoutSeconds, ids[i]) {
      assert Candidate(rows, locked, now, timeoutSeconds, ids[i]);
    }
    forall i, j | 0 <= i < j < |ids|
      ensures || rows[ids[i]].createdAt < rows[ids[j]].createdAt
              || (rows[ids[i]].createdAt == rows[ids[j]].createdAt && ids[i] < ids[j])
    {
      assert Before(rows, ids[i], ids[j]);
    }
    forall id, i | Due(rows, locked, now, timeoutSeconds, id) && id !in ids && 0 <= i < |ids|
      ensures || rows[ids[i]].createdAt < rows[id].createdAt
              || (rows[ids[i]].createdAt == rows[id].createdAt && ids[i] < id)
    {
      assert Candidate(rows, locked, now, timeoutSeconds, id) && Before(rows, ids[i], id);
    }
    forall id | Due(rows, locked, now, timeoutSeconds, id) && id !in ids ensures |ids| == limit {
      assert Candidate(rows, locked, now, timeoutSeconds, id);
    }
  }

  /** The query's answer is determined: two admissible selections are the same. */
  lemma SelectionUnique(
    rows: Rows, locked: set<EventId>, now: int, timeoutSeconds: nat, limit: nat, a: seq<EventId>, b: seq<EventId>)
    requires Selected(rows, locked, now, timeoutSeconds, limit, a)
    requires Selected(rows, locked, now, timeoutSeconds, limit, b)
    ensures a == b
  {
    var n := 0;
    while n < |a| && n < |b|
      invariant n <= |a| && n <= |b| && a[..n] == b[..n]
    {
      SameAt(rows, locked, now, timeoutSeconds, limit, a, b, n);
      n := n + 1;
    }
    if n < |a| {
      MissingFrom(rows, a, b, n);
    } else if n < |b| {
      MissingFrom(rows, b, a, n);
    }
  }

  lemma Least(rows: Rows, ids: set<EventId>) returns (first: EventId)
    requires ids != {} && forall id :: id in ids ==> id in rows
    ensures first in ids && forall id :: id in ids && id != first ==> Before(rows, first, id)
    decreases ids
  {
    var some: EventId :| some in ids;
    var rest := ids - {some};
    if rest == {} {
      first := some;
      assert ids == rest + {some};
    } else {
      var other := Least(rows, rest);
      first := if Before(rows, some, other) then some else other;
      forall id | id in ids && id != first ensures Before(rows, first, id) {
        assert id != some ==> id in rest;
      }
    }
  }

  /** There always is a selection, so the query's specification can be met. */
  lemma SelectionExists(rows: Rows, locked: set<EventId>, now: int, timeoutSeconds: nat, limit: nat)
    returns (ids: seq<EventId>)
    ensures Selected(rows, locked, now, timeoutSeconds, limit, ids)
  {
    ids := [];
    var rest := set id | id in rows && Candidate(rows, locked, now, timeoutSeconds, id);
    while |ids| < limit && rest != {}
      invariant |ids| <= limit
      invariant forall i :: 0 <= i < |ids| ==> Candidate(rows, locked, now, timeoutSeconds, ids[i])
      invariant InOrder(rows, ids)
      invariant forall id :: id in rest ==>
                  id in rows && id !in ids && forall i :: 0 <= i < |ids| ==> Before(rows, ids[i], id)
      invariant forall id :: Candidate(rows, locked, now, timeoutSeconds, id) <==> id in ids || id in rest
      decreases rest
    {
      var first := Least(rows, rest);
      ids := ids + [first];
      rest := rest - {first};
    }
  }

  // ---- the table ----

  function ClaimAll(rows: Rows, ids: seq<EventId>, worker: string, now: int): Rows {
    map id | id in rows :: if id in ids then Claim(rows[id], worker, now) else rows[id]
  }

  class OutboxTable {
    var rows: Rows

    constructor (rows: Rows)
      ensures this.rows == rows
    {
      this.rows := rows;
    }

    /** `selected` is what the claiming query returned, `locked` the rows held by other transactions. */
    method ClaimEvents(
      worker: string, now: int, timeoutSeconds: nat, limit: nat, ghost locked: set<EventId>, selected: seq<EventId>)
      returns (claimed: seq<ClaimedEvent>)
      requires Selected(rows, locked, now, timeoutSeconds, limit, selected)
      modifies this
      ensures rows == ClaimAll(old(rows), selected, worker, now)
      ensures rows.Keys == old(rows).Keys
      ensures forall id :: id in rows && id !in selected ==> rows[id] == old(rows)[id]
      ensures forall id :: id in rows && id in selected ==>
                var row := old(rows)[id];
                rows[id] == Row(row.createdAt, row.payload, Processing, row.attempts, row.availableAt,
                                Some(now), Some(worker), row.publishedAt, row.lastError)
      ensures |claimed| == |selected|
      ensures forall i :: 0 <= i < |selected| ==>
                claimed[i] == ClaimedEvent(selected[i], old(rows)[selected[i]].payload)
    {
      ghost var before := rows;
      for i := 0 to |selected|
        invariant rows == ClaimAll(before, selected[..i], worker, now)
      {
        var id := selected[i];
        assert id !in selected[..i] by {
          forall j | 0 <= j < i ensures selected[j] != id {
            assert Before(before, selected[j], selected[i]);
          }
        }
        rows := rows[id := rows[id].(status := Processing, lockedAt := Some(now), lockedBy := Some(worker))];
        assert selected[..i + 1] == selected[..i] + [id];
      }
      assert selected[..|selected|] == selected;
      claimed := seq(|selected|, i requires 0 <= i < |selected| && selected[i] in rows reads this =>
                                   ClaimedEvent(selected[i], rows[selected[i]].payload));
    }

    method MarkPublished(id: EventId, worker: string, now: int) returns (settled: bool)
      modifies this
      ensures settled <==>
                id in old(rows) && old(rows)[id].status == Processing && old(rows)[id].lockedBy == Some(worker)
      ensures rows == if settled then old(rows)[id := Publish(old(rows)[id], now)] else old(rows)
      ensures settled ==>
                var row := old(rows)[id];
                rows[id] == Row(row.createdAt, row.payload, Published, row.attempts, row.availableAt,
                                None, None, Some(now), None)
    {
      if id !in rows || !rows[id].status.Processing? || rows[id].lockedBy != Some(worker) {
        return false;
      }
      var event := rows[id].(status := Published);
      event := event.(publishedAt := Some(now));
      event := event.(lockedAt := None, lockedBy := None, lastError := None);
      rows := rows[id := event];
      settled := true;
    }

    method MarkFailed(id: EventId, worker: string, error: string, maxAttempts: int, now: int) returns (settled: bool)
      modifies this
      ensures settled <==>
                id in old(rows) && old(rows)[id].status == Processing && old(rows)[id].lockedBy == Some(worker)
      ensures rows == if settled then old(rows)[id := Fail(old(rows)[id], error, maxAttempts, now)] else old(rows)
      ensures settled ==>
                var row, attempts := old(rows)[id], old(rows)[id].attempts + 1;
                var kept := if |error| <= 2000 then error else error[..2000];
                && (attempts >= maxAttempts ==>
                      rows[id] == Row(row.createdAt, row.payload, Dead, attempts, row.availableAt,
                                      None, None, row.publishedAt, Some(kept)))
                && (attempts < maxAttempts ==>
                      rows[id] == Row(row.createdAt, row.payload, Pending, attempts,
                                      now + Power2(Min(attempts, 8)) * 1_000_000,
                                      None, None, row.publishedAt, Some(kept)))
    {
      if id !in rows || !rows[id].status.Processing? || rows[id].lockedBy != Some(worker) {
        return false;
      }
      var event := rows[id].(attempts := rows[id].attempts + 1, lastError := Some(Truncate(error)));
      event := event.(lockedAt := None, lockedBy := None);
      if event.attempts >= maxAttempts {
        event := event.(status := Dead);
      } else {
        BackoffIsPower(event.attempts);
        var backoffSeconds := Min(300, Power2(Min(event.attempts, 8)));
        event := event.(status := Pending, availableAt := now + backoffSeconds * SECOND);
      }
      rows := rows[id := event];
      settled := true;
    }

    method ReplayEvent(id: EventId, now: int) returns (result: Result<nat, ReplayError>)
      modifies this
      ensures id !in old(rows) ==> result == Err(UnknownEvent)
      ensures id in old(rows) && !old(rows)[id].status.Dead? ==> result == Err(NotDead(old(rows)[id].status))
      ensures result.Err? ==> rows == old(rows)
      ensures id in old(rows) && old(rows)[id].status.Dead? ==>
                && result == Ok(old(rows)[id].attempts)
                && rows == old(rows)[id := Replay(old(rows)[id], now)]
                && rows[id].attempts == old(rows)[id].attempts && rows[id].lastError == old(rows)[id].lastError
                && Claimable(rows[id], now, 0)
                && var row := old(rows)[id];
                   rows[id] == Row(row.createdAt, row.payload, Pending, row.attempts, now,
                                   None, None, row.publishedAt, row.lastError)
    {
      if id !in rows {
        return Err(UnknownEvent);
      }
      if !rows[id].status.Dead? {
        return Err(NotDead(rows[id].status));
      }
      rows := rows[id := rows[id].(status := Pending, availableAt := now, lockedAt := None, lockedBy := None)];
      result := Ok(rows[id].attempts);
    }

    /**
     One pass of a worker nobody interferes with: every selected event is published or failed, according to what
     its publish call did (`errors[i]` is the exception, if any), and no other event is touched.
     */
    method ProcessOnce(
      worker: string, claimedAt: int, timeoutSeconds: nat, limit: nat, maxAttempts: int,
      ghost locked: set<EventId>, selected: seq<EventId>, errors: seq<Option<string>>, settledAt: seq<int>)
      returns (count: nat)
      requires Selected(rows, locked, claimedAt, timeoutSeconds, limit, selected)
      requires |errors| == |selected| == |settledAt|
      modifies this
      ensures count == |selected|
      ensures rows.Keys == old(rows).Keys
      ensures forall id :: id in rows && id !in selected ==> rows[id] == old(rows)[id]
      ensures forall i :: 0 <= i < |selected| ==>
                var claim := Claim(old(rows)[selected[i]], worker, claimedAt);
                rows[selected[i]] == (match errors[i]
                                      case None => Publish(claim, settledAt[i])
                                      case Some(e) => Fail(claim, e, maxAttempts, settledAt[i]))
    {
      ghost var before := rows;
      var events := ClaimEvents(worker, claimedAt, timeoutSeconds, limit, locked, selected);
      ghost var claims := rows;
      for i := 0 to |events|
        invariant rows.Keys == before.Keys
        invariant forall id :: id in rows && id !in selected[..i] ==> rows[id] == claims[id]
        invariant forall j :: 0 <= j < i ==>
                    rows[selected[j]] == (match errors[j]
                                          case None => Publish(claims[selected[j]], settledAt[j])
                                          case Some(e) => Fail(claims[selected[j]], e, maxAttempts, settledAt[j]))
      {
        forall j | 0 <= j < |selected| && j != i ensures selected[j] != selected[i] {
          assert if j < i then Before(before, selected[j], selected[i]) else Before(before, selected[i], selected[j]);
        }
        assert rows[selected[i]] == claims[selected[i]];
        match errors[i] {
          case None => var _ := MarkPublished(events[i].id, worker, settledAt[i]);
          case Some(e) => var _ := MarkFailed(events[i].id, worker, e, maxAttempts, settledAt[i]);
        }
        assert selected[..i + 1] == selected[..i] + [selected[i]];
      }
      assert selected[..|selected|] == selected;
      count := |events|;
    }
  }
}
