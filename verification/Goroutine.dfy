/** The batch task scheduler object of goroutine/goroutine.go.  Map iteration orders and the
    order in which the mutex admits recordResponse calls are parameters: the properties hold
    for all of them. */
module Jobs {
  import opened Text
  import opened BatchKeys
  import opened Chunks
  import opened Responses

  datatype Result = Result(output: Value, err: Option<Error>)

  type StepFn = Value -> Result

  type Collector = (string, seq<Response>) -> Result

  datatype Options = Options(
    hasWorker: bool, worker: int,
    blockError: bool,
    isBatch: bool, batchSize: int)

  datatype Job = Job(processKey: string, stepKey: string, input: Value, fn: StepFn)

  predicate Splits(opt: Options) { opt.isBatch && opt.batchSize > 0 }

  function ItemsOf(batchInput: map<string, seq<Value>>, step: string): seq<Value> {
    if step in batchInput then batchInput[step] else []
  }

  function SingleInput(input: map<string, Value>, step: string): Value {
    if step in input then input[step] else Nil
  }

  /** The jobs of one step: a job a chunk, one job for an unsplit batch, or one plain job. */
  function StepJobs(
    step: string, fn: StepFn, input: map<string, Value>, batchInput: map<string, seq<Value>>, opt: Options): seq<Job>
  {
    var items := ItemsOf(batchInput, step);
    if items == [] then [Job(step, step, SingleInput(input, step), fn)]
    else if Splits(opt) then ChunkJobs(step, fn, Chunked(items, opt.batchSize), 0)
    else [Job(AllKey(step), step, List(items), fn)]
  }

  /** Jobs for the chunks from number i (counted from zero) on. */
  function ChunkJobs(step: string, fn: StepFn, chunks: seq<seq<Value>>, i: nat): (jobs: seq<Job>)
    requires i <= |chunks|
    ensures |jobs| == |chunks| - i
    ensures forall k :: 0 <= k < |jobs| ==> jobs[k] == Job(ProcessKey(step, i + k + 1), step, List(chunks[i + k]), fn)
    decreases |chunks| - i
  {
    if i == |chunks| then []
    else [Job(ProcessKey(step, i + 1), step, List(chunks[i]), fn)] + ChunkJobs(step, fn, chunks, i + 1)
  }

  ghost function AllJobs(
    order: seq<string>, steps: map<string, StepFn>, input: map<string, Value>,
    batchInput: map<string, seq<Value>>, opt: Options): seq<Job>
    requires forall k :: k in order ==> k in steps
  {
    if order == [] then []
    else
      var last := order[|order| - 1];
      AllJobs(order[..|order| - 1], steps, input, batchInput, opt)
      + StepJobs(last, steps[last], input, batchInput, opt)
  }

  /** executeJob on a step that neither panics nor overruns its deadline. */
  function Execute(j: Job): Response {
    var r := j.fn(j.input);
    Response(r.output, r.err, true)
  }

  lemma AllJobsNext(
    order: seq<string>, n: nat, steps: map<string, StepFn>, input: map<string, Value>,
    batchInput: map<string, seq<Value>>, opt: Options)
    requires n < |order| && forall k :: k in order ==> k in steps
    ensures AllJobs(order[..n + 1], steps, input, batchInput, opt)
            == AllJobs(order[..n], steps, input, batchInput, opt)
               + StepJobs(order[n], steps[order[n]], input, batchInput, opt)
  {
    assert order[..n + 1][..n] == order[..n];
  }

  /** The inner loop of buildJobs: one job a chunk. */
  method AppendChunkJobs(before: seq<Job>, stepKey: string, fn: StepFn, chunks: seq<seq<Value>>)
    returns (jobs: seq<Job>)
    ensures jobs == before + ChunkJobs(stepKey, fn, chunks, 0)
  {
    jobs := before;
    for i := 0 to |chunks|
      invariant jobs + ChunkJobs(stepKey, fn, chunks, i) == before + ChunkJobs(stepKey, fn, chunks, 0)
    {
      var next := Job(ProcessKey(stepKey, i + 1), stepKey, List(chunks[i]), fn);
      assert jobs + ([next] + ChunkJobs(stepKey, fn, chunks, i + 1))
               == (jobs + [next]) + ChunkJobs(stepKey, fn, chunks, i + 1);
      jobs := jobs + [next];
    }
    assert jobs + [] == jobs;
  }

  method BuildJobs(
    steps: map<string, StepFn>, input: map<string, Value>, batchInput: map<string, seq<Value>>,
    opt: Options, order: seq<string>) returns (jobs: seq<Job>)
    requires IsOrder(order, steps.Keys)
    ensures jobs == AllJobs(order, steps, input, batchInput, opt)
  {
    jobs := [];
    for n := 0 to |order|
      invariant jobs == AllJobs(order[..n], steps, input, batchInput, opt)
    {
      var stepKey := order[n];
      var fn := steps[stepKey];
      AllJobsNext(order, n, steps, input, batchInput, opt);
      if stepKey in batchInput && |batchInput[stepKey]| > 0 {
        var items := batchInput[stepKey];
        if opt.isBatch && opt.batchSize > 0 {
          var chunks := ChunkInterfaces(items, opt.batchSize);
          jobs := AppendChunkJobs(jobs, stepKey, fn, chunks);
        } else {
          jobs := jobs + [Job(AllKey(stepKey), stepKey, List(items), fn)];
        }
        continue;
      }
      if stepKey in input {
        jobs := jobs + [Job(stepKey, stepKey, input[stepKey], fn)];
        continue;
      }
      jobs := jobs + [Job(stepKey, stepKey, Nil, fn)];
    }
    assert order[..|order|] == order;
  }
}

module Goroutine {
  import opened Text
  import opened BatchKeys
  import opened Responses
  import opened Recorder
  import opened Jobs
  import Scheduler

  // ------------------------------------------------------------- collectors

  /** The keys that a collector's clean-up loop deletes. */
  function BatchKeysOf(keys: set<string>, step: string): set<string> {
    set k | k in keys && HasPrefix(k, step + SEP)
  }

  function Merged(collectors: map<string, Collector>, batches: map<string, seq<Response>>, step: string): Response
    requires step in collectors
  {
    var r := collectors[step](step, BatchOf(batches, step));
    Response(r.output, r.err, true)
  }

  function CollectOne(
    output: map<string, Response>, batches: map<string, seq<Response>>,
    collectors: map<string, Collector>, keys: set<string>, step: string): map<string, Response>
    requires step in collectors
  {
    var withMerged := output[step := Merged(collectors, batches, step)];
    if BatchOf(batches, step) == [] then withMerged else withMerged - BatchKeysOf(keys, step)
  }

  ghost function CollectAll(
    output: map<string, Response>, batches: map<string, seq<Response>>,
    collectors: map<string, Collector>, keys: set<string>, order: seq<string>): map<string, Response>
    requires forall k :: k in order ==> k in collectors
  {
    if order == [] then output
    else
      var last := order[|order| - 1];
      CollectOne(CollectAll(output, batches, collectors, keys, order[..|order| - 1]),
                 batches, collectors, keys, last)
  }

  /** The recordResponse calls that a schedule makes for a list of jobs. */
  ghost function Records(jobs: seq<Job>, log: seq<Scheduler.Entry>): seq<Record>
    requires forall k :: 0 <= k < |log| ==> log[k].job < |jobs|
  {
    seq(|log|, k requires 0 <= k < |log| => Record(jobs[log[k].job].processKey, log[k].resp))
  }

  // ------------------------------------------------------------ batch inputs

  /** The batch items that one AddBatchInput value stands for. */
  function ItemsIn(value: Value): seq<Value> {
    match value
    case Nil => []
    case List(items) => items
    case Atom(_) => [value]
  }

  function AddedBatch(batchInput: map<string, seq<Value>>, key: string, value: Value): map<string, seq<Value>> {
    if key == "" || ItemsIn(value) == [] then batchInput
    else batchInput[key := ItemsOf(batchInput, key) + ItemsIn(value)]
  }

  datatype BatchCall = BatchCall(key: string, value: Value)

  function AddedAll(batchInput: map<string, seq<Value>>, calls: seq<BatchCall>): map<string, seq<Value>>
    decreases |calls|
  {
    if calls == [] then batchInput
    else AddedAll(AddedBatch(batchInput, calls[0].key, calls[0].value), calls[1..])
  }

  /** The items of the calls made for one key, in the order of the calls. */
  function ItemsFor(calls: seq<BatchCall>, key: string): seq<Value> {
    if calls == [] then []
    else (if calls[0].key == key then ItemsIn(calls[0].value) else []) + ItemsFor(calls[1..], key)
  }

  /** After any calls for any keys, a key's batch is the concatenation of what it was given. */
  lemma {:induction false} BatchIsConcatenation(batchInput: map<string, seq<Value>>, calls: seq<BatchCall>, key: string)
    requires key != ""
    ensures ItemsOf(AddedAll(batchInput, calls), key) == ItemsOf(batchInput, key) + ItemsFor(calls, key)
    decreases |calls|
  {
    if calls != [] {
      BatchIsConcatenation(AddedBatch(batchInput, calls[0].key, calls[0].value), calls[1..], key);
    }
  }

  // ----------------------------------------------------------------- object

  class Goroutine {
    var input: map<string, Value>
    var batchInput: map<string, seq<Value>>
    var activeOption: Options
    var steps: map<string, StepFn>
    var successProcess: seq<string>
    var failedProcess: seq<string>
    var outputResp: map<string, Response>
    var batchCollectors: map<string, Collector>
    var batchResults: map<string, seq<Response>>

    ghost function Results(): Store
      reads this
    {
      Store(outputResp, batchResults, successProcess, failedProcess)
    }

    constructor ()
      ensures Results() == EMPTY
      ensures input == map[] && batchInput == map[] && steps == map[] && batchCollectors == map[]
      ensures activeOption == Options(false, 0, false, false, 0)
    {
      input, batchInput, steps, batchCollectors := map[], map[], map[], map[];
      activeOption := Options(false, 0, false, false, 0);
      successProcess, failedProcess := [], [];
      outputResp, batchResults := map[], map[];
    }

    method AddStep(key: string, f: Option<StepFn>)
      modifies this`steps
      ensures steps == if key == "" || f.None? then old(steps) else old(steps)[key := f.value]
    {
      if key == "" || f.None? {
        return;
      }
      steps := steps[key := f.value];
    }

    method AddInput(key: string, value: Value)
      modifies this`input
      ensures input == if key == "" then old(input) else old(input)[key := value]
    {
      if key == "" {
        return;
      }
      input := input[key := value];
    }

    /** Appends the elements of a slice or array, or the value itself when it is neither. */
    method AddBatchInput(key: string, value: Value)
      modifies this`batchInput
      ensures batchInput == AddedBatch(old(batchInput), key, value)
      ensures key != "" && value.List? ==> ItemsOf(batchInput, key) == ItemsOf(old(batchInput), key) + value.items
      ensures key != "" && value.Atom? ==> ItemsOf(batchInput, key) == ItemsOf(old(batchInput), key) + [value]
      ensures key == "" || value.Nil? ==> batchInput == old(batchInput)
    {
      if key == "" || value.Nil? {
        return;
      }
      if value.List? {
        var n := |value.items|;
        var i := 0;
        while i < n
          invariant 0 <= i <= n
          invariant batchInput == if i == 0 then old(batchInput)
                                  else old(batchInput)[key := ItemsOf(old(batchInput), key) + value.items[..i]]
        {
          ghost var before := ItemsOf(old(batchInput), key);
          assert before + [] == before;
          assert (before + value.items[..i]) + [value.items[i]] == before + (value.items[..i] + [value.items[i]]);
          batchInput := batchInput[key := (if key in batchInput then batchInput[key] else []) + [value.items[i]]];
          assert value.items[..i + 1] == value.items[..i] + [value.items[i]];
          i := i + 1;
        }
        assert value.items[..n] == value.items;
      } else {
        batchInput := batchInput[key := (if key in batchInput then batchInput[key] else []) + [value]];
      }
    }

    method AddCollectorBatch(key: string, collector: Option<Collector>)
      modifies this`batchCollectors
      ensures batchCollectors == if key == "" || collector.None? then old(batchCollectors)
                                 else old(batchCollectors)[key := collector.value]
    {
      if key == "" || collector.None? {
        return;
      }
      batchCollectors := batchCollectors[key := collector.value];
    }

    /** One call under the mutex: the object goes to the next state of the recorder. */
    method RecordResponse(processKey: string, resp: Response)
      modifies this`outputResp, this`successProcess, this`failedProcess, this`batchResults
      ensures Results() == RecordOne(old(Results()), processKey, resp)
    {
      hide ParseBatchKey;
      outputResp := outputResp[processKey := resp];
      if resp.isExecute && resp.err == None {
        successProcess := successProcess + [processKey];
      }
      if resp.isExecute && resp.err != None {
        failedProcess := failedProcess + [processKey];
      }
      var parsed := ParseBatchKey(processKey);
      if parsed.Some? {
        var stepKey, idx := parsed.value.step, parsed.value.index;
        var slots := if stepKey in batchResults then batchResults[stepKey] else [];
        if |slots| < idx {
          var newSlice := seq(idx, _ => ZERO);
          newSlice := slots + newSlice[|slots|..];
          assert newSlice == Grow(slots, idx);
          batchResults := batchResults[stepKey := newSlice];
        }
        assert batchResults[stepKey] == Grow(slots, idx);
        batchResults := batchResults[stepKey := batchResults[stepKey][idx - 1 := resp]];
      }
    }

    /** The clean-up loop over a snapshot of the keys, in any order. */
    method RemoveBatchKeys(keys: set<string>, stepKey: string)
      modifies this`outputResp
      ensures outputResp == old(outputResp) - BatchKeysOf(keys, stepKey)
    {
      var left := keys;
      while left != {}
        invariant left <= keys
        invariant outputResp == old(outputResp) - BatchKeysOf(keys - left, stepKey)
      {
        hide HasPrefix;
        var k :| k in left;
        left := left - {k};
        assert keys - left == (keys - (left + {k})) + {k};
        if HasPrefix(k, stepKey + SEP) {
          outputResp := outputResp - {k};
        }
      }
      assert keys - left == keys;
    }

    method ApplyBatchCollectors(order: seq<string>)
      requires IsOrder(order, batchCollectors.Keys)
      modifies this`outputResp
      ensures outputResp == CollectAll(old(outputResp), batchResults, batchCollectors, old(outputResp).Keys, order)
    {
      hide HasPrefix, BatchKeysOf;
      var collectors, results, keys := batchCollectors, batchResults, outputResp.Keys;
      var n := 0;
      while n < |order|
        invariant 0 <= n <= |order|
        invariant outputResp == CollectAll(old(outputResp), results, collectors, keys, order[..n])
      {
        var stepKey := order[n];
        assert order[..n + 1][..n] == order[..n];
        n := n + 1;
        if stepKey !in results || |results[stepKey]| == 0 {
          var r := collectors[stepKey](stepKey, []);
          outputResp := outputResp[stepKey := Response(r.output, r.err, true)];
          continue;
        }
        var r := collectors[stepKey](stepKey, results[stepKey]);
        outputResp := outputResp[stepKey := Response(r.output, r.err, true)];
        RemoveBatchKeys(keys, stepKey);
      }
      assert order[..n] == order;
    }

    /** Run, given the orders in which the maps are ranged over and the order in which the
        concurrent part makes its recordResponse calls. */
    method Run(order: seq<string>, log: seq<Scheduler.Entry>, collectorOrder: seq<string>)
      returns (out: map<string, Response>)
      requires IsOrder(order, steps.Keys) && IsOrder(collectorOrder, batchCollectors.Keys)
      requires forall k :: 0 <= k < |log| ==>
                 log[k].job < |AllJobs(order, steps, input, batchInput, activeOption)|
      modifies this`outputResp, this`successProcess, this`failedProcess, this`batchResults
      ensures var st := RecordAll(Records(AllJobs(order, steps, input, batchInput, activeOption), log));
              && successProcess == st.success && failedProcess == st.failed && batchResults == st.batches
              && out == outputResp == CollectAll(st.output, st.batches, batchCollectors, st.output.Keys, collectorOrder)
    {
      hide RecordOne;
      hide CollectAll;
      hide AllJobs;
      successProcess, failedProcess := [], [];
      outputResp, batchResults := map[], map[];
      var jobs := BuildJobs(steps, input, batchInput, activeOption, order);
      ghost var records := Records(jobs, log);
      var n := 0;
      while n < |log|
        invariant 0 <= n <= |log|
        invariant Results() == RecordAll(records[..n])
      {
        assert records[..n + 1][..n] == records[..n];
        RecordResponse(jobs[log[n].job].processKey, log[n].resp);
        n := n + 1;
      }
      assert records[..n] == records;
      ApplyBatchCollectors(collectorOrder);
      out := outputResp;
    }

    method IsProcessSuccess() returns (ok: bool)
      ensures ok <==> failedProcess == []
    {
      ok := |failedProcess| == 0;
    }
  }
}
