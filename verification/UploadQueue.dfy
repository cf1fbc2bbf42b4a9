/** The firmware's state changes, as functions on its persisted state, and the shape they keep it in. */
module UploadQueue {
  import opened Common
  import opened Json
  import opened DeviceState

  /** A new reading at the back; a full queue first drops its oldest reading and counts it. */
  function Enqueued(s: State, r: Reading, maxPending: nat): State {
    var full := |s.pending| >= maxPending && |s.pending| > 0;
    s.(nextSequence := s.nextSequence + 1,
       pending := (if full then s.pending[1..] else s.pending) + [r],
       dropped := if full then s.dropped + 1 else s.dropped)
  }

  function Batch(s: State, batchSize: nat): seq<Reading> {
    s.pending[..Min(batchSize, |s.pending|)]
  }

  /** A fully acknowledged batch leaves the queue. */
  function Acknowledged(s: State, batchSize: nat): State
    requires Batch(s, batchSize) != []
  {
    var batch := Batch(s, batchSize);
    s.(pending := s.pending[|batch|..], attempts := s.attempts + 1, lastStatus := Some(202),
       lastAcknowledged := Some(batch[|batch| - 1].sequence))
  }

  function FailureRecorded(s: State, status: Option<int>): State {
    s.(attempts := s.attempts + 1, failures := s.failures + 1, lastStatus := status)
  }

  /** The sequence of the first pending reading, or the next one to be assigned. */
  function FirstPending(s: State): int {
    s.nextSequence - |s.pending|
  }

  /** The queue is the contiguous interval of sequences that ends just below `nextSequence`. */
  ghost predicate Contiguous(s: State) {
    && FirstPending(s) >= 1
    && forall i :: 0 <= i < |s.pending| ==>
         s.pending[i].sequence == FirstPending(s) + i && 0.0 <= s.pending[i].pm25 <= 5000.0
  }

  ghost predicate Healthy(s: State) {
    && Contiguous(s)
    && s.dropped >= 0 && s.attempts >= 0 && s.failures >= 0
    && StatusReadable(s.lastStatus)
    && (s.lastAcknowledged.Some? ==> 1 <= s.lastAcknowledged.value < FirstPending(s))
  }

  lemma DefaultHealthy()
    ensures Healthy(DEFAULT_STATE)
  {
  }

  lemma EnqueuedHealthy(s: State, r: Reading, maxPending: nat)
    requires Healthy(s) && maxPending >= 1 && r.sequence == s.nextSequence && 0.0 <= r.pm25 <= 5000.0
    ensures Healthy(Enqueued(s, r, maxPending))
    ensures var next := Enqueued(s, r, maxPending);
            && |next.pending| == (if |s.pending| < maxPending then |s.pending| + 1 else |s.pending|)
            && next.dropped + FirstPending(s) == s.dropped + FirstPending(next)
  {
  }

  lemma AcknowledgedHealthy(s: State, batchSize: nat)
    requires Healthy(s) && batchSize >= 1 && s.pending != []
    ensures Healthy(Acknowledged(s, batchSize))
    ensures var next := Acknowledged(s, batchSize);
            && FirstPending(next) == FirstPending(s) + Min(batchSize, |s.pending|)
            && next.lastAcknowledged == Some(FirstPending(next) - 1) && next.lastStatus == Some(202)
            && next.attempts == s.attempts + 1 && next.failures == s.failures && next.dropped == s.dropped
    ensures s.lastAcknowledged.Some? ==>
              s.lastAcknowledged.value < Acknowledged(s, batchSize).lastAcknowledged.value
  {
  }

  /** Every state the firmware builds passes the checks made when it is loaded again. */
  lemma HealthyReadable(s: State)
    requires Healthy(s)
    ensures Readable(s) && CheckDocument(StateDocument(s)) == Ok(s)
  {
    forall i | 0 <= i < |s.pending|
      ensures ReadingReadable(s.pending[i], LastSequence(s.pending[..i]), s.nextSequence)
    {
    }
    SaveReadRoundTrip(s);
  }

  /** A recorded failure keeps the state well formed, and readable again, exactly for no status or one in 100..599. */
  lemma FailureHealthy(s: State, status: Option<int>)
    requires Healthy(s)
    ensures Healthy(FailureRecorded(s, status)) <==> StatusReadable(status)
    ensures CheckDocument(StateDocument(FailureRecorded(s, status))).Ok? <==> StatusReadable(status)
  {
    if StatusReadable(status) {
      HealthyReadable(FailureRecorded(s, status));
    } else {
      SaveReadRoundTrip(FailureRecorded(s, status));
    }
  }

  /** With a status outside 100..599 the recorded failure is a document `load` refuses. */
  lemma StrangeStatusUnreadable(s: State, status: int)
    requires status < 100 || status > 599
    ensures CheckDocument(StateDocument(FailureRecorded(s, Some(status)))).Err?
  {
    SaveReadRoundTrip(FailureRecorded(s, Some(status)));
  }
}
