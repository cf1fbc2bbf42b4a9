/**
 The outbox can always be emptied: whatever its workers and the administrator have done, there is a continuation
 after which every event, dead ones included, has been published.
 */
module OutboxDraining {
  import opened Common
  import opened Outbox
  import opened OutboxWorkers

  ghost predicate Path(c: Settings, states: seq<State>, steps: seq<Step>) {
    && |states| == |steps| + 1
    && forall i :: 0 <= i < |steps| ==> !steps[i].Add? && Next(c, states[i], steps[i], states[i + 1])
  }

  /** The workers and the administrator can get from `s` to `t`, no event being added. */
  ghost predicate Reaches(c: Settings, s: State, t: State) {
    exists states, steps :: Path(c, states, steps) && states[0] == s && states[|states| - 1] == t
  }

  lemma ReachesSelf(c: Settings, s: State)
    ensures Reaches(c, s, s)
  {
    assert Path(c, [s], []) && [s][0] == s && [s][|[s]| - 1] == s;
  }

  /** One more step, which keeps the invariant. */
  lemma StepReaches(c: Settings, s: State, t: State, step: Step, u: State)
    requires c.maxAttempts >= 1 && Reaches(c, s, t) && Inv(c, t) && Next(c, t, step, u) && !step.Add?
    ensures Reaches(c, s, u) && Inv(c, u)
  {
    OutboxWorkers.StepKeepsInv(c, t, step, u);
    var states, steps :| Path(c, states, steps) && states[0] == s && states[|states| - 1] == t;
    var states', steps' := states + [u], steps + [step];
    forall i | 0 <= i < |steps'| ensures !steps'[i].Add? && Next(c, states'[i], steps'[i], states'[i + 1]) {
      if i < |steps| {
        assert Next(c, states[i], steps[i], states[i + 1]);
      }
    }
    assert Path(c, states', steps') && states'[0] == s && states'[|states'| - 1] == u;
  }

  // ---- a quiet table ----

  /** No worker is at work, so no row is held by an open claim. */
  ghost predicate Quiet(s: State) {
    forall w :: w in s.workers ==> s.workers[w].Resting?
  }

  lemma QuietUnlocked(s: State)
    requires Quiet(s)
    ensures LockedIds(s) == {}
  {
  }

  ghost function Busy(s: State): set<string> {
    set w | w in s.workers && !s.workers[w].Resting?
  }

  /** Every worker can stop. */
  lemma {:induction false} AllStopped(c: Settings, s: State, t: State) returns (u: State)
    requires c.maxAttempts >= 1 && Reaches(c, s, t) && Inv(c, t)
    ensures Reaches(c, s, u) && Inv(c, u) && Quiet(u) && u.rows == t.rows
    decreases |Busy(t)|
  {
    if Busy(t) == {} {
      u := t;
      forall w | w in t.workers ensures t.workers[w].Resting? {
        assert w !in Busy(t);
      }
    } else {
      var w :| w in Busy(t);
      u := With(t, w, Resting);
      StepReaches(c, s, t, Crash(w), u);
      assert Busy(u) == Busy(t) - {w};
      u := AllStopped(c, s, u);
    }
  }

  ghost function WithStatus(rows: Rows, status: Status): set<EventId> {
    set id | id in rows && rows[id].status == status
  }

  /** A dead event can be replayed, which makes it pending and changes no other. */
  lemma OneReplayed(c: Settings, s: State, t: State, id: EventId) returns (u: State)
    requires c.maxAttempts >= 1 && Reaches(c, s, t) && Inv(c, t) && Quiet(t) && id in WithStatus(t.rows, Dead)
    ensures Reaches(c, s, u) && Inv(c, u) && Quiet(u) && u.rows == t.rows[id := Replay(t.rows[id], 0)]
  {
    QuietUnlocked(t);
    var h := HistoryOf(t, id);
    u := t.(rows := t.rows[id := Replay(t.rows[id], 0)], history := t.history[id := h.(replays := h.replays + 1)]);
    StepReaches(c, s, t, ReplayDead(id, 0), u);
  }

  /** Every dead event can be replayed. */
  lemma {:induction false} AllReplayed(c: Settings, s: State, t: State) returns (u: State)
    requires c.maxAttempts >= 1 && Reaches(c, s, t) && Inv(c, t) && Quiet(t)
    ensures Reaches(c, s, u) && Inv(c, u) && Quiet(u) && u.rows.Keys == t.rows.Keys
    ensures forall id :: id in u.rows ==> !u.rows[id].status.Dead?
    decreases |WithStatus(t.rows, Dead)|
  {
    if WithStatus(t.rows, Dead) == {} {
      u := t;
      forall id | id in t.rows ensures !t.rows[id].status.Dead? {
        assert id !in WithStatus(t.rows, Dead);
      }
    } else {
      var id :| id in WithStatus(t.rows, Dead);
      u := OneReplayed(c, s, t, id);
      assert WithStatus(u.rows, Dead) == WithStatus(t.rows, Dead) - {id};
      u := AllReplayed(c, s, u);
    }
  }

  // ---- one pass of a worker ----

  /** A moment from which every unfinished event of the table is due. */
  lemma {:induction false} AllDue(rows: Rows, ids: set<EventId>, timeoutSeconds: nat) returns (now: int)
    requires forall id :: id in ids ==> id in rows
    ensures forall id :: id in ids ==> DueAt(rows[id], timeoutSeconds) <= now
    decreases |ids|
  {
    if ids == {} {
      now := 0;
    } else {
      var id :| id in ids;
      var others := AllDue(rows, ids - {id}, timeoutSeconds);
      now := Max(others, DueAt(rows[id], timeoutSeconds));
      forall other | other in ids ensures DueAt(rows[other], timeoutSeconds) <= now {
        assert other != id ==> other in ids - {id};
      }
    }
  }

  /** The worker holds the locks of all it still has to settle, and is the only one at work. */
  ghost predicate Holds(s: State, w: string, ids: seq<EventId>, at: int, pos: nat) {
    && WorkerOf(s, w) == Running(ids, at, pos, NotTried) && pos <= |ids| && Distinct(ids)
    && (forall v :: v in s.workers && v != w ==> s.workers[v].Resting?)
    && (forall i :: pos <= i < |ids| ==> ids[i] in s.rows && LockedBy(s.rows[ids[i]], w))
  }

  /** What a pass has done so far: the events before `pos` are published, and no others are touched. */
  ghost predicate PublishedUpto(before: Rows, rows: Rows, ids: seq<EventId>, pos: nat)
    requires pos <= |ids|
  {
    && rows.Keys == before.Keys
    && (forall i :: 0 <= i < pos ==> ids[i] in rows && rows[ids[i]].status.Published?)
    && forall id :: id in rows && id !in ids ==> rows[id] == before[id]
  }

  function Called(s: State, w: string, ids: seq<EventId>, at: int, pos: nat): State
    requires pos < |ids|
  {
    With(s, w, Running(ids, at, pos, Succeeded)).(delivered := s.delivered + {ids[pos]})
  }

  function Settled(s: State, w: string, ids: seq<EventId>, at: int, pos: nat): State
    requires pos < |ids| && ids[pos] in s.rows
  {
    var id := ids[pos];
    With(s, w, Running(ids, at, pos + 1, NotTried))
    .(rows := s.rows[id := Publish(s.rows[id], at)], history := s.history[id := HistoryOf(s, id)])
  }

  lemma CallIsStep(c: Settings, t: State, w: string, ids: seq<EventId>, at: int, pos: nat)
    requires Holds(t, w, ids, at, pos) && pos < |ids|
    ensures Next(c, t, CallPublisher(w, Succeeded), Called(t, w, ids, at, pos))
  {
  }

  lemma SettleIsStep(c: Settings, t: State, w: string, ids: seq<EventId>, at: int, pos: nat)
    requires Holds(t, w, ids, at, pos) && pos < |ids|
    ensures var called := Called(t, w, ids, at, pos);
            Next(c, called, Settle(w, at), Settled(called, w, ids, at, pos))
  {
    assert LockedIds(Called(t, w, ids, at, pos)) == {};
  }

  lemma SettledHolds(t: State, w: string, ids: seq<EventId>, at: int, pos: nat, before: Rows)
    requires Holds(t, w, ids, at, pos) && pos < |ids| && PublishedUpto(before, t.rows, ids, pos)
    ensures var u := Settled(Called(t, w, ids, at, pos), w, ids, at, pos);
            Holds(u, w, ids, at, pos + 1) && PublishedUpto(before, u.rows, ids, pos + 1)
  {
    var u := Settled(Called(t, w, ids, at, pos), w, ids, at, pos);
    assert u.rows.Keys == t.rows.Keys;
  }

  /** A claimed event can be published and settled. */
  lemma OnePublished(c: Settings, s: State, t: State, w: string, ids: seq<EventId>, at: int, pos: nat)
    returns (u: State)
    requires c.maxAttempts >= 1 && Reaches(c, s, t) && Inv(c, t) && Holds(t, w, ids, at, pos) && pos < |ids|
    ensures Reaches(c, s, u) && Inv(c, u) && u == Settled(Called(t, w, ids, at, pos), w, ids, at, pos)
  {
    var called := Called(t, w, ids, at, pos);
    CallIsStep(c, t, w, ids, at, pos);
    StepReaches(c, s, t, CallPublisher(w, Succeeded), called);
    SettleIsStep(c, t, w, ids, at, pos);
    u := Settled(called, w, ids, at, pos);
    StepReaches(c, s, called, Settle(w, at), u);
  }

  lemma {:induction false} AllPublished(
    c: Settings, s: State, t: State, w: string, ids: seq<EventId>, at: int, pos: nat, before: Rows) returns (u: State)
    requires c.maxAttempts >= 1 && Reaches(c, s, t) && Inv(c, t) && Holds(t, w, ids, at, pos)
    requires PublishedUpto(before, t.rows, ids, pos)
    ensures Reaches(c, s, u) && Inv(c, u) && Holds(u, w, ids, at, |ids|)
    ensures PublishedUpto(before, u.rows, ids, |ids|)
    decreases |ids| - pos
  {
    if pos == |ids| {
      u := t;
    } else {
      u := OnePublished(c, s, t, w, ids, at, pos);
      SettledHolds(t, w, ids, at, pos, before);
      u := AllPublished(c, s, u, w, ids, at, pos + 1, before);
    }
  }

  lemma SomethingSelected(c: Settings, t: State, at: int, ids: seq<EventId>)
    requires Inv(c, t) && c.limit >= 1 && Selected(t.rows, {}, at, c.timeoutSeconds, c.limit, ids)
    requires forall id :: id in t.rows ==> DueAt(t.rows[id], c.timeoutSeconds) <= at
    requires exists id :: id in t.rows && !t.rows[id].status.Published?
    requires forall id :: id in t.rows ==> !t.rows[id].status.Dead?
    ensures ids != [] && forall id :: id in ids ==> id in t.rows && !t.rows[id].status.Published?
  {
    var some: EventId :| some in t.rows && !t.rows[some].status.Published?;
    assert EventOk(c, t, some);
    ClaimableExactly(t.rows[some], at, c.timeoutSeconds);
    assert Candidate(t.rows, {}, at, c.timeoutSeconds, some);
    forall id | id in ids ensures id in t.rows && !t.rows[id].status.Published? {
      var i :| 0 <= i < |ids| && ids[i] == id;
      assert Candidate(t.rows, {}, at, c.timeoutSeconds, ids[i]);
    }
  }

  function Claimed(t: State, w: string, ids: seq<EventId>, at: int): State {
    With(With(t, w, Selecting(ids, at)), w, Running(ids, at, 0, NotTried)).(rows := ClaimAll(t.rows, ids, w, at))
  }

  lemma ClaimHolds(t: State, w: string, ids: seq<EventId>, at: int)
    requires Quiet(t) && Distinct(ids) && forall id :: id in ids ==> id in t.rows
    ensures Holds(Claimed(t, w, ids, at), w, ids, at, 0)
    ensures PublishedUpto(t.rows, Claimed(t, w, ids, at).rows, ids, 0)
  {
  }

  lemma SelectedDistinct(rows: Rows, at: int, timeoutSeconds: nat, limit: nat, ids: seq<EventId>)
    requires Selected(rows, {}, at, timeoutSeconds, limit, ids)
    ensures Distinct(ids)
  {
    forall i, j | 0 <= i < j < |ids| ensures ids[i] != ids[j] {
      assert Before(rows, ids[i], ids[j]);
    }
  }

  /** A worker can claim what the query selects. */
  lemma ClaimTaken(c: Settings, s: State, t: State, ids: seq<EventId>, at: int) returns (u: State)
    requires c.maxAttempts >= 1 && Reaches(c, s, t) && Inv(c, t) && Quiet(t)
    requires Selected(t.rows, {}, at, c.timeoutSeconds, c.limit, ids)
    ensures Reaches(c, s, u) && Inv(c, u) && u == Claimed(t, "w", ids, at)
  {
    QuietUnlocked(t);
    var selecting := With(t, "w", Selecting(ids, at));
    StepReaches(c, s, t, Select("w", ids, at), selecting);
    u := Claimed(t, "w", ids, at);
    StepReaches(c, s, selecting, CommitClaim("w"), u);
  }

  lemma PassEnds(c: Settings, s: State, t: State, ids: seq<EventId>, at: int) returns (u: State)
    requires c.maxAttempts >= 1 && Reaches(c, s, t) && Inv(c, t) && Holds(t, "w", ids, at, |ids|)
    ensures Reaches(c, s, u) && Inv(c, u) && Quiet(u) && u.rows == t.rows
  {
    u := With(t, "w", Resting);
    StepReaches(c, s, t, Finish("w"), u);
  }

  /** A pass of one worker over a quiet table without dead events publishes what it claims, which is something. */
  lemma Pass(c: Settings, s: State, t: State) returns (u: State, ids: seq<EventId>)
    requires c.maxAttempts >= 1 && c.limit >= 1 && Reaches(c, s, t) && Inv(c, t) && Quiet(t)
    requires exists id :: id in t.rows && !t.rows[id].status.Published?
    requires forall id :: id in t.rows ==> !t.rows[id].status.Dead?
    ensures Reaches(c, s, u) && Inv(c, u) && Quiet(u)
    ensures ids != [] && (forall id :: id in ids ==> id in t.rows && !t.rows[id].status.Published?)
    ensures PublishedUpto(t.rows, u.rows, ids, |ids|)
  {
    var at := AllDue(t.rows, t.rows.Keys, c.timeoutSeconds);
    ids := SelectionExists(t.rows, {}, at, c.timeoutSeconds, c.limit);
    SomethingSelected(c, t, at, ids);
    SelectedDistinct(t.rows, at, c.timeoutSeconds, c.limit, ids);
    u := ClaimTaken(c, s, t, ids, at);
    ClaimHolds(t, "w", ids, at);
    u := AllPublished(c, s, u, "w", ids, at, 0, t.rows);
    u := PassEnds(c, s, u, ids, at);
  }

  // ---- main result ----

  ghost function Unpublished(rows: Rows): set<EventId> {
    set id | id in rows && !rows[id].status.Published?
  }

  lemma SubsetCount(a: set<EventId>, b: set<EventId>)
    requires a <= b
    ensures |a| <= |b|
  {
    assert b == a + (b - a);
  }

  lemma FewerLeft(before: Rows, rows: Rows, ids: seq<EventId>)
    requires PublishedUpto(before, rows, ids, |ids|) && ids != []
    requires forall id :: id in ids ==> id in before && !before[id].status.Published?
    ensures |Unpublished(rows)| < |Unpublished(before)|
    ensures (forall id :: id in before ==> !before[id].status.Dead?) ==>
              forall id :: id in rows ==> !rows[id].status.Dead?
  {
    forall id | id in ids ensures id in rows && rows[id].status.Published? {
      var i :| 0 <= i < |ids| && ids[i] == id;
    }
    assert ids[0] in Unpublished(before) && ids[0] !in Unpublished(rows);
    assert Unpublished(rows) <= Unpublished(before) - {ids[0]};
    SubsetCount(Unpublished(rows), Unpublished(before) - {ids[0]});
  }

  lemma {:induction false} Drained(c: Settings, s: State, t: State) returns (u: State)
    requires c.maxAttempts >= 1 && c.limit >= 1 && Reaches(c, s, t) && Inv(c, t) && Quiet(t)
    requires forall id :: id in t.rows ==> !t.rows[id].status.Dead?
    ensures Reaches(c, s, u) && u.rows.Keys == t.rows.Keys
    ensures forall id :: id in u.rows ==> u.rows[id].status.Published?
    decreases |Unpublished(t.rows)|
  {
    if Unpublished(t.rows) == {} {
      u := t;
      forall id | id in t.rows ensures t.rows[id].status.Published? {
        assert id !in Unpublished(t.rows);
      }
    } else {
      var some :| some in Unpublished(t.rows);
      var ids;
      u, ids := Pass(c, s, t);
      FewerLeft(t.rows, u.rows, ids);
      u := Drained(c, s, u);
    }
  }

  lemma AllCanBePublished(c: Settings, s: State) returns (u: State)
    requires c.maxAttempts >= 1 && c.limit >= 1 && Inv(c, s)
    ensures Reaches(c, s, u) && u.rows.Keys == s.rows.Keys
    ensures forall id :: id in u.rows ==> u.rows[id].status.Published?
  {
    ReachesSelf(c, s);
    u := AllStopped(c, s, s);
    u := AllReplayed(c, s, u);
    u := Drained(c, s, u);
  }

  /**
   From every reachable state of workers and administrator there is a continuation in which every event of the
   outbox, whatever became of it so far, is published.
   */
  lemma EverythingCanBePublished(c: Settings, states: seq<State>, steps: seq<Step>, n: nat) returns (u: State)
    requires IsRun(c, states, steps) && n < |states| && c.limit >= 1
    ensures Reaches(c, states[n], u) && u.rows.Keys == states[n].rows.Keys
    ensures forall id :: id in u.rows ==> u.rows[id].status.Published?
  {
    RunInv(c, states, steps, n);
    u := AllCanBePublished(c, states[n]);
  }
}
