/** What a list of recordResponse calls leaves behind (goroutine/goroutine.go). */
module Recorder {
  import opened Text
  import opened BatchKeys
  import opened Responses

  /** One recordResponse call. */
  datatype Record = Record(key: string, resp: Response)

  /** The result fields of the goroutine object. */
  datatype Store = Store(
    output: map<string, Response>,
    batches: map<string, seq<Response>>,
    success: seq<string>,
    failed: seq<string>)

  const EMPTY: Store := Store(map[], map[], [], [])

  function BatchOf(batches: map<string, seq<Response>>, step: string): seq<Response> {
    if step in batches then batches[step] else []
  }

  /** Make room for slot number n, keeping what is there. */
  function Grow(slots: seq<Response>, n: nat): seq<Response> {
    if |slots| < n then slots + seq(n - |slots|, _ => ZERO) else slots
  }

  function PutBatch(batches: map<string, seq<Response>>, key: string, resp: Response): map<string, seq<Response>> {
    match ParseBatchKey(key)
    case None => batches
    case Some(bk) =>
      batches[bk.step := Grow(BatchOf(batches, bk.step), bk.index)[bk.index - 1 := resp]]
  }

  function RecordOne(st: Store, key: string, resp: Response): Store {
    Store(
      st.output[key := resp],
      PutBatch(st.batches, key, resp),
      if resp.Succeeded() then st.success + [key] else st.success,
      if resp.Failed() then st.failed + [key] else st.failed)
  }

  function RecordAll(records: seq<Record>): Store {
    if records == [] then EMPTY
    else
      var last := records[|records| - 1];
      RecordOne(RecordAll(records[..|records| - 1]), last.key, last.resp)
  }

  // ------------------------------------------------ the same, read off directly

  /** The response of the last call for a key. */
  function LastFor(records: seq<Record>, key: string): Option<Response> {
    if records == [] then None
    else
      var last := records[|records| - 1];
      if last.key == key then Some(last.resp) else LastFor(records[..|records| - 1], key)
  }

  /** The response of the last call whose key reads back as chunk n of a step. */
  function LastChunk(records: seq<Record>, step: string, n: nat): Option<Response> {
    if records == [] then None
    else
      var last := records[|records| - 1];
      if ParseBatchKey(last.key) == Some(BatchKey(step, n)) then Some(last.resp)
      else LastChunk(records[..|records| - 1], step, n)
  }

  /** The largest chunk number of a step seen so far; 0 when none was. */
  function MaxChunk(records: seq<Record>, step: string): nat {
    if records == [] then 0
    else
      var before := MaxChunk(records[..|records| - 1], step);
      match ParseBatchKey(records[|records| - 1].key)
      case Some(bk) => if bk.step == step && bk.index > before then bk.index else before
      case None => before
  }

  lemma {:induction false} OutputIsLast(records: seq<Record>, key: string)
    ensures var st := RecordAll(records);
            var last := LastFor(records, key);
            (key in st.output <==> last.Some?) && (last.Some? ==> st.output[key] == last.value)
  {
    if records != [] {
      OutputIsLast(records[..|records| - 1], key);
    }
  }

  function SlotFor(records: seq<Record>, step: string, n: nat): Response {
    match LastChunk(records, step, n) case Some(r) => r case None => Response(Nil, None, false)
  }

  /** At every moment a step's slice is as long as the largest chunk number recorded; each slot
      holds the latest response for its chunk and the zero response where there was none. */
  lemma {:induction false} BatchSlots(records: seq<Record>, step: string)
    ensures var slots := BatchOf(RecordAll(records).batches, step);
            && |slots| == MaxChunk(records, step)
            && (step in RecordAll(records).batches <==> |slots| > 0)
            && forall i :: 0 <= i < |slots| ==> slots[i] == SlotFor(records, step, i + 1)
  {
    hide ParseBatchKey;
    if records != [] {
      var n := |records| - 1;
      var front, last := records[..n], records[n];
      BatchSlots(front, step);
      var prev := BatchOf(RecordAll(front).batches, step);
      var slots := BatchOf(RecordAll(records).batches, step);
      var bk := ParseBatchKey(last.key);
      if bk.Some? && bk.value.step == step {
        var idx := bk.value.index;
        assert slots == Grow(prev, idx)[idx - 1 := last.resp];
        forall i | 0 <= i < |slots| ensures slots[i] == SlotFor(records, step, i + 1) {
          if i != idx - 1 {
            assert LastChunk(records, step, i + 1) == LastChunk(front, step, i + 1);
            if i >= |prev| {
              NoChunkBeyondMax(front, step, i + 1);
            }
          }
        }
      } else {
        assert slots == prev;
        forall i | 0 <= i < |slots| ensures slots[i] == SlotFor(records, step, i + 1) {
          assert LastChunk(records, step, i + 1) == LastChunk(front, step, i + 1);
        }
      }
    }
  }

  lemma {:induction false} NoChunkBeyondMax(records: seq<Record>, step: string, n: nat)
    requires n > MaxChunk(records, step)
    ensures LastChunk(records, step, n) == None
  {
    if records != [] {
      NoChunkBeyondMax(records[..|records| - 1], step, n);
    }
  }

  // ------------------------------------------------------- complete recordings

  ghost predicate DistinctKeys(records: seq<Record>) {
    forall i, j :: 0 <= i < j < |records| ==> records[i].key != records[j].key
  }

  lemma {:induction false} LastForRecorded(records: seq<Record>, i: nat)
    requires i < |records| && DistinctKeys(records)
    ensures LastFor(records, records[i].key) == Some(records[i].resp)
  {
    if i < |records| - 1 {
      LastForRecorded(records[..|records| - 1], i);
    }
  }

  lemma {:induction false} LastForAbsent(records: seq<Record>, key: string)
    requires forall i :: 0 <= i < |records| ==> records[i].key != key
    ensures LastFor(records, key) == None
  {
    if records != [] {
      LastForAbsent(records[..|records| - 1], key);
    }
  }

  /** Distinct keys may still read back alike ("#batch_1", "#batch_+1"); printed ones do not. */
  ghost predicate DistinctChunks(records: seq<Record>) {
    forall i, j :: 0 <= i < j < |records| && ParseBatchKey(records[i].key).Some?
      ==> ParseBatchKey(records[i].key) != ParseBatchKey(records[j].key)
  }

  lemma {:induction false} LastChunkRecorded(records: seq<Record>, i: nat)
    requires i < |records| && DistinctChunks(records) && ParseBatchKey(records[i].key).Some?
    ensures var bk := ParseBatchKey(records[i].key).value;
            LastChunk(records, bk.step, bk.index) == Some(records[i].resp)
            && bk.index <= MaxChunk(records, bk.step)
  {
    hide ParseBatchKey;
    if i < |records| - 1 {
      LastChunkRecorded(records[..|records| - 1], i);
    }
  }

  lemma {:induction false} MaxChunkAttained(records: seq<Record>, step: string)
    ensures MaxChunk(records, step) > 0 ==>
              exists i :: 0 <= i < |records|
                && ParseBatchKey(records[i].key) == Some(BatchKey(step, MaxChunk(records, step)))
  {
    if records != [] {
      var front := records[..|records| - 1];
      MaxChunkAttained(front, step);
      if MaxChunk(records, step) == MaxChunk(front, step) && MaxChunk(front, step) > 0 {
        var i :| 0 <= i < |front| && ParseBatchKey(front[i].key) == Some(BatchKey(step, MaxChunk(front, step)));
        assert records[i] == front[i];
      }
    }
  }

  // ------------------------------------------------------------- accounting

  /** With distinct keys the two process lists are disjoint, free of repeats and hold together
      exactly the keys of the executed jobs, split by outcome. */
  lemma {:induction false} ProcessAccounting(records: seq<Record>)
    requires DistinctKeys(records)
    ensures var st := RecordAll(records);
            && NoRepeats(st.success) && NoRepeats(st.failed)
            && (forall k :: k in st.success ==> k !in st.failed)
            && (forall k :: k in st.success <==>
                  exists i :: 0 <= i < |records| && records[i].key == k
                              && records[i].resp.isExecute && records[i].resp.err == None)
            && (forall k :: k in st.failed <==>
                  exists i :: 0 <= i < |records| && records[i].key == k
                              && records[i].resp.isExecute && records[i].resp.err != None)
  {
    if records != [] {
      var n := |records| - 1;
      var front := records[..n];
      ProcessAccounting(front);
      var st, prev := RecordAll(records), RecordAll(front);
      forall k
        ensures k in st.success <==>
                  exists i :: 0 <= i < |records| && records[i].key == k && records[i].resp.Succeeded()
        ensures k in st.failed <==> exists i :: 0 <= i < |records| && records[i].key == k && records[i].resp.Failed()
      {
        assert k in st.success <==> k in prev.success || (k == records[n].key && records[n].resp.Succeeded());
        assert k in st.failed <==> k in prev.failed || (k == records[n].key && records[n].resp.Failed());
        assert forall i :: 0 <= i < n ==> front[i] == records[i];
      }
      assert records[n].key !in prev.success && records[n].key !in prev.failed;
    }
  }
}
