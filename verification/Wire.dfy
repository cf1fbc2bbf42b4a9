/** What the firmware posts: the request built from the first readings of its queue. */
module Wire {
  import opened Common
  import opened Json
  import opened Ingestion
  import opened Validation
  import opened DeviceState
  import opened IdempotencyKey

  function Input(r: Reading): ReadingInput
    requires r.sequence >= 0
  {
    ReadingInput(r.sequence, r.observedAt, r.pm25, None, None)
  }

  predicate Postable(batch: seq<Reading>) {
    |batch| > 0 && forall i :: 0 <= i < |batch| ==> batch[i].sequence >= 0
  }

  function Inputs(batch: seq<Reading>): (readings: seq<ReadingInput>)
    requires Postable(batch)
    ensures |readings| == |batch|
  {
    seq(|batch|, i requires 0 <= i < |batch| => Input(batch[i]))
  }

  /** The compact encoding of the batch; layout 0 names the firmware's spelling of it. */
  function BatchRequest(device: string, batch: seq<Reading>): Request
    requires Postable(batch)
  {
    Request(device, DeviceKey(device, batch[0].sequence, batch[|batch| - 1].sequence), Body(Inputs(batch), 0))
  }

  function BatchDocument(batch: seq<Reading>): Json {
    Obj(map["readings" := Arr(ReadingDocuments(batch))])
  }

  lemma ReadingMeans(r: Reading, clock: Clock)
    requires r.sequence >= 0 && 0.0 <= r.pm25 <= 5000.0
    ensures ItemMeans(ReadingDocument(r), clock, Input(r)) <==> clock(r.observedAt).Aware?
  {
    var item := ReadingDocument(r);
    assert item.Get("sequence") == Int(r.sequence);
    assert item.Get("observed_at") == Str(r.observedAt);
    assert item.Get("pm25_ug_m3") == Float(Finite(r.pm25));
    assert item.Get("temperature_c") == Null;
    assert item.Get("relative_humidity") == Null;
  }

  lemma ItemDetermines(item: Json, clock: Clock, r: Reading, parsed: ReadingInput)
    requires item == ReadingDocument(r) && ItemMeans(item, clock, parsed) && r.sequence >= 0
    ensures parsed == Input(r)
  {
    assert item.Get("sequence") == Int(r.sequence);
    assert item.Get("observed_at") == Str(r.observedAt);
    assert item.Get("pm25_ug_m3") == Float(Finite(r.pm25));
    assert item.Get("temperature_c") == Null;
    assert item.Get("relative_humidity") == Null;
  }

  /**
   A non-empty batch of queued readings passes the service's validation exactly when it is small enough and
   every timestamp parses with a zone; the readings the service then sees are the queued ones.
   */
  lemma BatchAccepted(batch: seq<Reading>, maxBatchSize: int, clock: Clock)
    requires Postable(batch)
    requires forall i :: 0 <= i < |batch| ==> 0.0 <= batch[i].pm25 <= 5000.0
    requires forall i, j :: 0 <= i < j < |batch| ==> batch[i].sequence < batch[j].sequence
    ensures CheckBatch(BatchDocument(batch), maxBatchSize, clock) == Ok(Inputs(batch)) <==>
              |batch| <= maxBatchSize && forall i :: 0 <= i < |batch| ==> clock(batch[i].observedAt).Aware?
    ensures CheckBatch(BatchDocument(batch), maxBatchSize, clock).Ok? ==>
              CheckBatch(BatchDocument(batch), maxBatchSize, clock) == Ok(Inputs(batch))
  {
    var payload := BatchDocument(batch);
    var items := ReadingDocuments(batch);
    assert payload.Get("readings") == Arr(items);
    forall i | 0 <= i < |batch|
      ensures ItemMeans(items[i], clock, Inputs(batch)[i]) <==> clock(batch[i].observedAt).Aware?
    {
      ReadingMeans(batch[i], clock);
    }
    AcceptedExactly(payload, maxBatchSize, clock, Inputs(batch));
    var outcome := CheckBatch(payload, maxBatchSize, clock);
    if outcome.Ok? {
      AcceptedExactly(payload, maxBatchSize, clock, outcome.value);
      forall i | 0 <= i < |batch| ensures outcome.value[i] == Inputs(batch)[i] {
        ItemDetermines(items[i], clock, batch[i], outcome.value[i]);
      }
      assert outcome.value == Inputs(batch);
    }
  }
}
