/**
 `devices.last_sequence` is read when a transaction begins and written when it commits, without a lock.
 One transaction at a time per device, it is the greatest stored sequence; with overlapping transactions
 it can fall behind, and `CommitKeepsLast` says exactly when.
 */
module LastSequence {
  import opened Common
  import opened Ingestion
  import opened IngestionTransactions

  /** `last` is the greatest sequence stored for the device; unset while none is. */
  ghost predicate IsLast(ms: seq<MeasurementRow>, device: string, last: Option<nat>) {
    match last
    case None => forall m :: m in ms ==> m.device != device
    case Some(v) =>
      && Has(ms, device, v)
      && forall m :: m in ms && m.device == device ==> m.reading.sequence <= v
  }

  lemma {:induction false} BatchMaxIsMax(readings: seq<ReadingInput>) returns (r: ReadingInput)
    requires |readings| > 0
    ensures r in readings && r.sequence == BatchMax(readings)
    ensures forall q :: q in readings ==> q.sequence <= BatchMax(readings)
  {
    r := readings[|readings| - 1];
    if |readings| == 1 {
      assert BatchMax(readings[..0]) == 0;
    } else {
      var earlier := BatchMaxIsMax(readings[..|readings| - 1]);
      if r.sequence < earlier.sequence {
        r := earlier;
      }
    }
  }

  lemma HasMember(ms: seq<MeasurementRow>, device: string, sequence: nat) returns (m: MeasurementRow)
    requires Has(ms, device, sequence)
    ensures m in ms && SameSlot(m, device, sequence)
  {
    var i :| 0 <= i < |ms| && SameSlot(ms[i], device, sequence);
    m := ms[i];
  }

  /** A column value that was right for the rows `ms`, after a batch has been stored and the column rewritten. */
  lemma LastRewritten(
    before: seq<MeasurementRow>, ms: seq<MeasurementRow>, added: seq<MeasurementRow>,
    device: string, readings: seq<ReadingInput>, lastRead: Option<nat>, current: Option<nat>)
    requires before <= ms && IsLast(before, device, lastRead) && IsLast(ms, device, current)
    requires |readings| > 0 && AllStored(ms + added, device, readings)
    requires forall m :: m in added ==> m.device == device && m.reading in readings
    ensures var next := Max(lastRead.GetOr(0), BatchMax(readings));
            IsLast(ms + added, device, if lastRead == Some(next) then current else Some(next)) <==>
              (lastRead == Some(next) || current.None? || current.value <= next)
  {
    var r := BatchMaxIsMax(readings);
    var m := HasMember(ms + added, device, r.sequence);
    if lastRead.Some? {
      HasAppend(before, ms[|before|..], device, lastRead.value);
      assert before + ms[|before|..] == ms;
      HasAppend(ms, added, device, lastRead.value);
      var q := HasMember(ms, device, lastRead.value);
    }
    if current.Some? {
      HasAppend(ms, added, device, current.value);
      var q := HasMember(ms + added, device, current.value);
    }
  }

  /** The rows a commit adds are its own device's, from its own batch, and afterwards the whole batch is stored. */
  lemma CommitEffect(s: State, t: nat, s': State) returns (added: seq<MeasurementRow>)
    requires Inv(s) && Next(s, Commit(t), s')
    ensures s'.db.measurements == s.db.measurements + added
    ensures forall m :: m in added ==> m.device == s.txs[t].req.device && m.reading in s.txs[t].req.body.readings
    ensures AllStored(s'.db.measurements, s.txs[t].req.device, s.txs[t].req.body.readings)
  {
    var tx := s.txs[t];
    assert TxOk(s, tx);
    StepKeepsInv(s, Commit(t), s');
    if tx.phase.Holding? {
      added := tx.phase.rows;
      var readings := tx.req.body.readings;
      assert readings[..|readings|] == readings;
      FreshRowsOrigin(s.db.measurements, tx.req.device, tx.phase.id, readings);
      AnswerCoversBatch(s', tx.req, Accepted(AckFor(tx.phase.id, tx.req, |added|)));
    } else {
      added := [];
      assert s.db.measurements + added == s.db.measurements;
      AnswerCoversBatch(s', tx.req, Replayed(tx.phase.ack));
    }
  }

  ghost predicate BatchesNotEmpty(s: State) {
    forall t :: t in s.txs ==> |s.txs[t].req.body.readings| > 0
  }

  lemma LastWritten(s: State, t: nat, s': State)
    requires Next(s, Commit(t), s')
    ensures s'.last == LastAfter(s.last, s.txs[t])
  {
  }

  /**
   Suppose `last_sequence` is right now, and was right when this transaction read it (`then` being the rows
   committed at that time).  After the commit it is right if and only if the transaction does not write the
   column or writes a value that is not below the one now in it.
   */
  lemma CommitKeepsLast(s: State, t: nat, s': State, before: seq<MeasurementRow>)
    requires Inv(s) && Next(s, Commit(t), s') && |s.txs[t].req.body.readings| > 0
    requires IsLast(s.db.measurements, s.txs[t].req.device, LastOf(s.last, s.txs[t].req.device))
    requires before <= s.db.measurements && IsLast(before, s.txs[t].req.device, s.txs[t].lastRead)
    ensures var tx := s.txs[t];
            var current := LastOf(s.last, tx.req.device);
            IsLast(s'.db.measurements, tx.req.device, LastOf(s'.last, tx.req.device)) <==>
              (tx.lastRead == Some(NewLast(tx)) || current.None? || current.value <= NewLast(tx))
  {
    var tx := s.txs[t];
    var device := tx.req.device;
    var added := CommitEffect(s, t, s');
    LastRewritten(before, s.db.measurements, added, device, tx.req.body.readings,
                  tx.lastRead, LastOf(s.last, device));
    LastWritten(s, t, s');
  }

  // ---- one transaction at a time per device ----

  ghost predicate OneAtATime(s: State) {
    forall t, u :: t in s.txs && u in s.txs && s.txs[t].req.device == s.txs[u].req.device ==> t == u
  }

  ghost predicate LastInv(s: State) {
    && BatchesNotEmpty(s)
    && (forall device :: IsLast(s.db.measurements, device, LastOf(s.last, device)))
    && forall t :: t in s.txs ==> s.txs[t].lastRead == LastOf(s.last, s.txs[t].req.device)
  }

  lemma OtherStepKeepsLast(s: State, step: Step, s': State)
    requires LastInv(s) && Next(s, step, s') && !step.Commit?
    ensures LastInv(s')
  {
    assert s'.db == s.db && s'.last == s.last;
    forall t | t in s'.txs
      ensures |s'.txs[t].req.body.readings| > 0 && s'.txs[t].lastRead == LastOf(s.last, s'.txs[t].req.device)
    {
      assert t in s.txs ==> s'.txs[t].req == s.txs[t].req && s'.txs[t].lastRead == s.txs[t].lastRead;
    }
  }

  lemma CommitKeepsDevice(s: State, t: nat, s': State, device: string)
    requires Inv(s) && LastInv(s) && Next(s, Commit(t), s')
    ensures IsLast(s'.db.measurements, device, LastOf(s'.last, device))
  {
    var own := s.txs[t].req.device;
    var current := LastOf(s.last, device);
    assert IsLast(s.db.measurements, device, current);
    LastWritten(s, t, s');
    if device == own {
      CommitKeepsLast(s, t, s', s.db.measurements);
    } else {
      var added := CommitEffect(s, t, s');
      if current.Some? {
        HasAppend(s.db.measurements, added, device, current.value);
      }
    }
  }

  lemma CommitStepKeepsLast(s: State, t: nat, s': State)
    requires Inv(s) && LastInv(s) && OneAtATime(s) && Next(s, Commit(t), s')
    ensures LastInv(s')
  {
    forall device ensures IsLast(s'.db.measurements, device, LastOf(s'.last, device)) {
      CommitKeepsDevice(s, t, s', device);
    }
    LastWritten(s, t, s');
    assert s'.txs == s.txs - {t};
  }

  lemma StepKeepsLast(s: State, step: Step, s': State)
    requires Inv(s) && LastInv(s) && OneAtATime(s) && Next(s, step, s')
    ensures LastInv(s')
  {
    if step.Commit? {
      CommitStepKeepsLast(s, step.t, s');
    } else {
      OtherStepKeepsLast(s, step, s');
    }
  }

  lemma RunStepKeepsLast(states: seq<State>, steps: seq<Step>, n: nat)
    requires IsRun(states, steps) && n < |steps| && LastInv(states[n]) && OneAtATime(states[n])
    ensures LastInv(states[n + 1])
  {
    RunInv(states, steps, n);
    StepKeepsLast(states[n], steps[n], states[n + 1]);
  }

  /** Over any run with at most one open transaction per device, `last_sequence` is the greatest stored sequence. */
  lemma {:induction false} LastIsGreatest(states: seq<State>, steps: seq<Step>, n: nat)
    requires IsRun(states, steps) && n < |states|
    requires forall i :: 0 <= i < |states| ==> OneAtATime(states[i])
    ensures LastInv(states[n])
  {
    if n == 0 {
    } else {
      LastIsGreatest(states, steps, n - 1);
      RunStepKeepsLast(states, steps, n - 1);
    }
  }

  // ---- and otherwise not ----

  function Sample(sequence: nat): Request {
    Request("d", if sequence == 1 then "a" else "b", Body([ReadingInput(sequence, "t", 0.0, None, None)], 0))
  }

  /** Runs an open transaction with a one-reading batch through to its commit. */
  lemma Upload(past: seq<State>, taken: seq<Step>, t: nat, id: nat) returns (states: seq<State>, steps: seq<Step>)
    requires IsRun(past, taken)
    requires var s := past[|past| - 1];
             && t in s.txs && s.txs[t].phase.Started? && s.txs[t].lastRead.None? && id !in s.ids
             && s.txs[t].req in {Sample(1), Sample(2)}
             && (forall u :: u in s.txs ==> s.txs[u].phase.Started?)
             && Find(s.db.requests, "d", s.txs[t].req.key).None?
             && !Has(s.db.measurements, "d", s.txs[t].req.body.readings[0].sequence)
    ensures IsRun(states, steps)
    ensures var s := past[|past| - 1];
            var s' := states[|states| - 1];
            var req := s.txs[t].req;
            && s'.txs == s.txs - {t} && s'.ids == s.ids + {id}
            && s'.last == s.last["d" := req.body.readings[0].sequence]
            && s'.db.requests == s.db.requests + [RequestRow(id, "d", req.key, req.body, Some(Ack(id, "d", 1, 0)))]
            && s'.db.measurements == s.db.measurements + [MeasurementRow("d", id, req.body.readings[0])]
  {
    var s1, s2, s3, s4 := OneReadingSteps(past[|past| - 1], t, id);
    states := past + [s1, s2, s3, s4];
    steps := taken + [Reserve(t, id), Insert(t), Stage(t), Commit(t)];
    forall i | 0 <= i < |steps| ensures Next(states[i], steps[i], states[i + 1]) {
      if i < |taken| {
        assert Next(past[i], taken[i], past[i + 1]);
      }
    }
  }

  /** Two overlapping uploads of sequences 1 and 2; the older batch commits last and the column falls back to 1. */
  lemma LostUpdate() returns (states: seq<State>, steps: seq<Step>)
    ensures IsRun(states, steps)
    ensures var s := states[|states| - 1];
            Has(s.db.measurements, "d", 2) && LastOf(s.last, "d") == Some(1)
  {
    var a, b := Sample(1), Sample(2);
    var s0 := INITIAL;
    var s1 := s0.(txs := map[1 := Tx(a, None, Started)], begun := {a});
    var s2 := s1.(txs := s1.txs[2 := Tx(b, None, Started)], begun := {a, b});
    states, steps := [s0, s1, s2], [Begin(1, a), Begin(2, b)];
    assert s1.begun + {b} == s2.begun;
    states, steps := Upload(states, steps, 2, 7);
    states, steps := Upload(states, steps, 1, 8);
    var ms := states[|states| - 1].db.measurements;
    assert SameSlot(ms[0], "d", 2);
  }
}
