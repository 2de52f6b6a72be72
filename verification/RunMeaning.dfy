/** What Run returns: chunking, concurrent execution in any interleaving, recording in any order
    and collecting together mean the same as evaluating each step once, sequentially. */
module RunMeaning {
  import opened Text
  import opened BatchKeys
  import opened Chunks
  import opened Responses
  import opened Recorder
  import opened Jobs
  import opened Goroutine
  import Scheduler

  /** Everything a caller has registered before Run. */
  datatype Setup = Setup(
    steps: map<string, StepFn>,
    input: map<string, Value>,
    batchInput: map<string, seq<Value>>,
    opt: Options,
    collectors: map<string, Collector>)

  /** No step or collector key contains the separator; slices fit Go's int. */
  ghost predicate WellKeyed(su: Setup) {
    && (forall k :: k in su.steps ==> Clean(k) && |ItemsOf(su.batchInput, k)| <= MAX_INT)
    && (forall k :: k in su.collectors ==> Clean(k))
  }

  ghost function JobsOf(su: Setup, order: seq<string>): seq<Job>
    requires IsOrder(order, su.steps.Keys)
  {
    AllJobs(order, su.steps, su.input, su.batchInput, su.opt)
  }

  ghost function JobsOfStep(su: Setup, step: string): seq<Job>
    requires step in su.steps
  {
    StepJobs(step, su.steps[step], su.input, su.batchInput, su.opt)
  }

  ghost predicate IsChunked(su: Setup, step: string) {
    step in su.steps && ItemsOf(su.batchInput, step) != [] && Splits(su.opt)
  }

  ghost function ChunksOf(su: Setup, step: string): seq<seq<Value>>
    requires IsChunked(su, step)
  {
    Chunked(ItemsOf(su.batchInput, step), su.opt.batchSize)
  }

  // ------------------------------------------------------- keys name their jobs

  /** The job behind a process key, found from the key alone. */
  ghost function JobFor(su: Setup, key: string): Option<Job>
  {
    if key in su.steps then
      if ItemsOf(su.batchInput, key) == [] then Some(JobsOfStep(su, key)[0]) else None
    else
      match Index(key, SEP)
      case None => None
      case Some(pos) =>
        var step := key[..pos];
        if step !in su.steps || ItemsOf(su.batchInput, step) == [] then None
        else if !Splits(su.opt) then
          if key == AllKey(step) then Some(JobsOfStep(su, step)[0]) else None
        else
          match ParseBatchKey(key)
          case None => None
          case Some(bk) =>
            if bk.index <= |JobsOfStep(su, step)| && key == ProcessKey(step, bk.index)
            then Some(JobsOfStep(su, step)[bk.index - 1]) else None
  }

  lemma ChunkCountFits<T>(items: seq<T>, size: nat)
    requires size > 0
    ensures |Chunked(items, size)| <= |items|
    decreases |items|
  {
    if |items| > size {
      ChunkCountFits(items[size..], size);
    }
  }

  lemma ProcessKeyIsNoStep(su: Setup, step: string, tail: string)
    requires WellKeyed(su)
    ensures step + SEP + tail !in su.steps
  {
    var key := step + SEP + tail;
    if Clean(key) {
      assert key[|step|..|step| + |SEP|] == SEP;
      assert OccursAt(key, SEP, |step|);
    }
  }

  lemma KeyNamesJob(su: Setup, step: string, i: nat)
    requires WellKeyed(su) && step in su.steps && i < |JobsOfStep(su, step)|
    ensures var j := JobsOfStep(su, step)[i];
            j.stepKey == step && JobFor(su, j.processKey) == Some(j)
  {
    if IsChunked(su, step) {
      KeyNamesChunk(su, step, i);
    } else if ItemsOf(su.batchInput, step) != [] {
      KeyNamesWhole(su, step);
    }
  }

  lemma KeyNamesChunk(su: Setup, step: string, i: nat)
    requires WellKeyed(su) && IsChunked(su, step) && i < |JobsOfStep(su, step)|
    ensures var j := JobsOfStep(su, step)[i];
            j.stepKey == step && JobFor(su, j.processKey) == Some(j)
  {
    hide ParseBatchKey;
    hide Index;
    hide Decimal;
    ChunkCountFits(ItemsOf(su.batchInput, step), su.opt.batchSize);
    FirstSeparator(step, Decimal(i + 1));
    assert ProcessKey(step, i + 1)[..|step|] == step;
    ParsePrintedKey(step, i + 1);
    ProcessKeyIsNoStep(su, step, Decimal(i + 1));
  }

  lemma KeyNamesWhole(su: Setup, step: string)
    requires WellKeyed(su) && step in su.steps && ItemsOf(su.batchInput, step) != [] && !Splits(su.opt)
    ensures var j := JobsOfStep(su, step)[0];
            j.stepKey == step && JobFor(su, j.processKey) == Some(j)
  {
    hide ParseBatchKey;
    hide Index;
    FirstSeparator(step, "all");
    assert AllKey(step)[..|step|] == step;
    ProcessKeyIsNoStep(su, step, "all");
  }

  lemma NamedJobExists(su: Setup, key: string)
    requires JobFor(su, key).Some?
    ensures var j := JobFor(su, key).value;
            j.processKey == key && j.stepKey in su.steps && j in JobsOfStep(su, j.stepKey)
  {
    hide ParseBatchKey;
    hide Index;
  }

  lemma {:induction false} JobsComeFromSteps(su: Setup, order: seq<string>, n: nat, j: Job)
    requires IsOrder(order, su.steps.Keys) && n <= |order|
    ensures j in AllJobs(order[..n], su.steps, su.input, su.batchInput, su.opt)
            <==> exists m :: 0 <= m < n && j in JobsOfStep(su, order[m])
  {
    if n > 0 {
      AllJobsNext(order, n - 1, su.steps, su.input, su.batchInput, su.opt);
      JobsComeFromSteps(su, order, n - 1, j);
    }
  }

  /** A job is scheduled exactly when its key names it. */
  lemma JobIsScheduled(su: Setup, order: seq<string>, j: Job)
    requires WellKeyed(su) && IsOrder(order, su.steps.Keys)
    ensures j in JobsOf(su, order) <==> JobFor(su, j.processKey) == Some(j)
  {
    hide JobFor;
    assert order[..|order|] == order;
    JobsComeFromSteps(su, order, |order|, j);
    if j in JobsOf(su, order) {
      var m :| 0 <= m < |order| && j in JobsOfStep(su, order[m]);
      var i :| 0 <= i < |JobsOfStep(su, order[m])| && JobsOfStep(su, order[m])[i] == j;
      KeyNamesJob(su, order[m], i);
    }
    if JobFor(su, j.processKey) == Some(j) {
      NamedJobExists(su, j.processKey);
      assert j.stepKey in order;
    }
  }

  /** Distinct process keys, for every iteration order of the step map. */
  lemma {:induction false} ProcessKeysDistinct(su: Setup, order: seq<string>, n: nat)
    requires WellKeyed(su) && IsOrder(order, su.steps.Keys) && n <= |order|
    ensures var jobs := AllJobs(order[..n], su.steps, su.input, su.batchInput, su.opt);
            forall a, b :: 0 <= a < b < |jobs| ==> jobs[a].processKey != jobs[b].processKey
  {
    hide JobFor;
    if n > 0 {
      var front := AllJobs(order[..n - 1], su.steps, su.input, su.batchInput, su.opt);
      var step := order[n - 1];
      var last := JobsOfStep(su, step);
      AllJobsNext(order, n - 1, su.steps, su.input, su.batchInput, su.opt);
      ProcessKeysDistinct(su, order, n - 1);
      StepKeysDistinct(su, step);
      forall a, b | 0 <= a < |front| && 0 <= b < |last| ensures front[a].processKey != last[b].processKey {
        EarlierKeyDiffers(su, order, n - 1, front[a], b);
      }
      hide AllJobs, JobsOfStep;
    }
  }

  /** A job of a step before number n has another key than the jobs of that step. */
  lemma EarlierKeyDiffers(su: Setup, order: seq<string>, n: nat, j: Job, b: nat)
    requires WellKeyed(su) && IsOrder(order, su.steps.Keys) && n < |order|
    requires j in AllJobs(order[..n], su.steps, su.input, su.batchInput, su.opt) && b < |JobsOfStep(su, order[n])|
    ensures j.processKey != JobsOfStep(su, order[n])[b].processKey
  {
    JobsComeFromSteps(su, order, n, j);
    hide JobFor, AllJobs, JobsOfStep;
    var m :| 0 <= m < n && j in JobsOfStep(su, order[m]);
    var i :| 0 <= i < |JobsOfStep(su, order[m])| && JobsOfStep(su, order[m])[i] == j;
    KeyNamesJob(su, order[m], i);
    KeyNamesJob(su, order[n], b);
  }

  lemma StepKeysDistinct(su: Setup, step: string)
    requires WellKeyed(su) && step in su.steps
    ensures var jobs := JobsOfStep(su, step);
            forall a, b :: 0 <= a < b < |jobs| ==> jobs[a].processKey != jobs[b].processKey
  {
    var jobs := JobsOfStep(su, step);
    if IsChunked(su, step) {
      ChunkCountFits(ItemsOf(su.batchInput, step), su.opt.batchSize);
      forall a, b | 0 <= a < b < |jobs| ensures jobs[a].processKey != jobs[b].processKey {
        PrintedKeysDistinct(step, a + 1, step, b + 1);
      }
    }
  }

  /** Only chunk jobs of a split batch have a key that reads back as a batch key. */
  lemma ParsedKeyIsChunk(su: Setup, j: Job)
    requires WellKeyed(su) && JobFor(su, j.processKey) == Some(j)
    ensures match ParseBatchKey(j.processKey)
            case None => !IsChunked(su, j.stepKey)
            case Some(bk) =>
              && bk.step == j.stepKey && IsChunked(su, j.stepKey)
              && bk.index <= |JobsOfStep(su, bk.step)| && j == JobsOfStep(su, bk.step)[bk.index - 1]
              && j.processKey == ProcessKey(bk.step, bk.index)
  {
    hide ParseBatchKey;
    NamedJobExists(su, j.processKey);
    hide JobFor;
    var jobs := JobsOfStep(su, j.stepKey);
    var i :| 0 <= i < |jobs| && jobs[i] == j;
    if IsChunked(su, j.stepKey) {
      ChunkCountFits(ItemsOf(su.batchInput, j.stepKey), su.opt.batchSize);
      ParsePrintedKey(j.stepKey, i + 1);
    } else if ItemsOf(su.batchInput, j.stepKey) == [] {
      CleanKeyIsNoBatchKey(j.stepKey);
    } else {
      AllKeyIsNoBatchKey(j.stepKey);
    }
  }

  // --------------------------------------------- a complete run

  /** The response of each job, by process key. */
  type Answer = string -> Response

  /** Each job recorded once, with the response given for it. */
  ghost predicate FullLog(jobs: seq<Job>, log: seq<Scheduler.Entry>, ans: Answer) {
    && (forall k :: 0 <= k < |log| ==> log[k].job < |jobs| && log[k].resp == ans(jobs[log[k].job].processKey))
    && (forall k, l :: 0 <= k < l < |log| ==> log[k].job != log[l].job)
    && (forall j :: 0 <= j < |jobs| ==> Scheduler.InLog(log, j))
  }

  /** What a complete recording must satisfy for its order not to matter. */
  ghost predicate Faithful(su: Setup, rs: seq<Record>, ans: Answer) {
    && DistinctKeys(rs)
    && (forall k :: 0 <= k < |rs| ==> JobFor(su, rs[k].key).Some? && rs[k].resp == ans(rs[k].key))
    && (forall key :: JobFor(su, key).Some? ==> exists k :: 0 <= k < |rs| && rs[k].key == key)
  }

  lemma RecordKeysDistinct(su: Setup, order: seq<string>, log: seq<Scheduler.Entry>)
    requires WellKeyed(su) && IsOrder(order, su.steps.Keys)
    requires forall k :: 0 <= k < |log| ==> log[k].job < |JobsOf(su, order)|
    requires forall k, l :: 0 <= k < l < |log| ==> log[k].job != log[l].job
    ensures DistinctKeys(Records(JobsOf(su, order), log))
  {
    var jobs := JobsOf(su, order);
    var rs := Records(jobs, log);
    assert jobs == AllJobs(order[..|order|], su.steps, su.input, su.batchInput, su.opt) by {
      assert order[..|order|] == order;
    }
    ProcessKeysDistinct(su, order, |order|);
    forall a, b | 0 <= a < b < |rs| ensures rs[a].key != rs[b].key {
      assert log[a].job != log[b].job;
    }
  }

  lemma RecordsAreJobs(su: Setup, order: seq<string>, log: seq<Scheduler.Entry>, ans: Answer)
    requires WellKeyed(su) && IsOrder(order, su.steps.Keys) && FullLog(JobsOf(su, order), log, ans)
    ensures Faithful(su, Records(JobsOf(su, order), log), ans)
  {
    hide JobFor;
    var jobs := JobsOf(su, order);
    var rs := Records(jobs, log);
    RecordKeysDistinct(su, order, log);
    forall k | 0 <= k < |rs|
      ensures JobFor(su, rs[k].key) == Some(jobs[log[k].job]) && rs[k].resp == ans(rs[k].key)
    {
      JobIsScheduled(su, order, jobs[log[k].job]);
    }
    forall key | JobFor(su, key).Some? ensures exists k :: 0 <= k < |rs| && rs[k].key == key {
      KeyIsRecorded(su, order, log, ans, key);
    }
  }

  lemma KeyIsRecorded(su: Setup, order: seq<string>, log: seq<Scheduler.Entry>, ans: Answer, key: string)
    requires WellKeyed(su) && IsOrder(order, su.steps.Keys) && FullLog(JobsOf(su, order), log, ans)
    requires JobFor(su, key).Some?
    ensures exists k :: 0 <= k < |log| && Records(JobsOf(su, order), log)[k].key == key
  {
    hide JobFor;
    NamedJobExists(su, key);
    var jobs := JobsOf(su, order);
    var j := JobFor(su, key).value;
    JobIsScheduled(su, order, j);
    var i: nat :| 0 <= i < |jobs| && jobs[i] == j;
    assert Scheduler.InLog(log, i);
    var k :| 0 <= k < |log| && log[k].job == i;
    assert Records(jobs, log)[k].key == key;
  }

  lemma FaithfulChunksDistinct(su: Setup, rs: seq<Record>, ans: Answer)
    requires WellKeyed(su) && Faithful(su, rs, ans)
    ensures DistinctChunks(rs)
  {
    hide JobFor;
    hide ParseBatchKey;
    forall a, b | 0 <= a < b < |rs| && ParseBatchKey(rs[a].key).Some?
      ensures ParseBatchKey(rs[a].key) != ParseBatchKey(rs[b].key)
    {
      NamedJobExists(su, rs[a].key);
      NamedJobExists(su, rs[b].key);
      ParsedKeyIsChunk(su, JobFor(su, rs[a].key).value);
      ParsedKeyIsChunk(su, JobFor(su, rs[b].key).value);
    }
  }

  /** Under each key the recorded output is the answer of the job that the key names. */
  lemma RecordedOutput(su: Setup, order: seq<string>, log: seq<Scheduler.Entry>, ans: Answer, key: string)
    requires WellKeyed(su) && IsOrder(order, su.steps.Keys) && FullLog(JobsOf(su, order), log, ans)
    ensures var output := RecordAll(Records(JobsOf(su, order), log)).output;
            && (key in output <==> JobFor(su, key).Some?)
            && (key in output ==> output[key] == ans(key))
  {
    hide JobFor;
    var rs := Records(JobsOf(su, order), log);
    RecordsAreJobs(su, order, log, ans);
    OutputIsLast(rs, key);
    if JobFor(su, key).Some? {
      var k :| 0 <= k < |rs| && rs[k].key == key;
      LastForRecorded(rs, k);
    } else {
      LastForAbsent(rs, key);
    }
  }

  /** The responses a collector should see: one a chunk, in chunk order. */
  ghost function ChunkResponses(su: Setup, step: string, ans: Answer): seq<Response> {
    if IsChunked(su, step) then seq(|ChunksOf(su, step)|, i requires 0 <= i => ans(ProcessKey(step, i + 1))) else []
  }

  /** For every order of completion the slice of a step ends as its chunk responses in order. */
  lemma RecordedBatches(su: Setup, order: seq<string>, log: seq<Scheduler.Entry>, ans: Answer, step: string)
    requires WellKeyed(su) && IsOrder(order, su.steps.Keys) && FullLog(JobsOf(su, order), log, ans)
    ensures BatchOf(RecordAll(Records(JobsOf(su, order), log)).batches, step) == ChunkResponses(su, step, ans)
  {
    RecordsAreJobs(su, order, log, ans);
    FaithfulBatches(su, Records(JobsOf(su, order), log), ans, step);
  }

  lemma FaithfulBatches(su: Setup, rs: seq<Record>, ans: Answer, step: string)
    requires WellKeyed(su) && Faithful(su, rs, ans)
    ensures BatchOf(RecordAll(rs).batches, step) == ChunkResponses(su, step, ans)
  {
    hide JobFor;
    hide ParseBatchKey;
    FaithfulChunksDistinct(su, rs, ans);
    BatchSlots(rs, step);
    FaithfulMax(su, rs, ans, step);
    if IsChunked(su, step) {
      var slots := BatchOf(RecordAll(rs).batches, step);
      forall i | 0 <= i < |slots| ensures slots[i] == ans(ProcessKey(step, i + 1)) {
        ChunkIsRecorded(su, rs, ans, step, i);
      }
    }
  }

  /** The slice of a step ends with room for its chunks and no more. */
  lemma FaithfulMax(su: Setup, rs: seq<Record>, ans: Answer, step: string)
    requires WellKeyed(su) && Faithful(su, rs, ans) && DistinctChunks(rs)
    ensures MaxChunk(rs, step) == if IsChunked(su, step) then |JobsOfStep(su, step)| else 0
  {
    hide JobFor;
    hide ParseBatchKey;
    MaxChunkAttained(rs, step);
    if MaxChunk(rs, step) > 0 {
      var k :| 0 <= k < |rs| && ParseBatchKey(rs[k].key) == Some(BatchKey(step, MaxChunk(rs, step)));
      NamedJobExists(su, rs[k].key);
      ParsedKeyIsChunk(su, JobFor(su, rs[k].key).value);
    }
    if IsChunked(su, step) {
      FlattenChunked(ItemsOf(su.batchInput, step), su.opt.batchSize);
      ChunkIsRecorded(su, rs, ans, step, |JobsOfStep(su, step)| - 1);
    }
  }

  lemma ChunkIsRecorded(su: Setup, rs: seq<Record>, ans: Answer, step: string, i: nat)
    requires WellKeyed(su) && IsChunked(su, step) && i < |JobsOfStep(su, step)|
    requires Faithful(su, rs, ans) && DistinctChunks(rs)
    ensures i < MaxChunk(rs, step) && SlotFor(rs, step, i + 1) == ans(ProcessKey(step, i + 1))
  {
    hide JobFor;
    hide ParseBatchKey;
    var j := JobsOfStep(su, step)[i];
    KeyNamesJob(su, step, i);
    ChunkCountFits(ItemsOf(su.batchInput, step), su.opt.batchSize);
    ParsePrintedKey(step, i + 1);
    var k :| 0 <= k < |rs| && rs[k].key == j.processKey;
    LastChunkRecorded(rs, k);
  }

  // ----------------------------------------------------------------- collectors

  /** What collecting leaves under a key, when collector keys are clean: a collector's own key
      holds its merged response; any other key is kept unless a collector that received
      responses owns it as a batch key. */
  lemma {:induction false} CollectedEntry(
    output: map<string, Response>, batches: map<string, seq<Response>>,
    collectors: map<string, Collector>, order: seq<string>, key: string)
    requires forall c :: c in order ==> c in collectors && Clean(c)
    ensures var out := CollectAll(output, batches, collectors, output.Keys, order);
            && (key in order ==> key in out && out[key] == Merged(collectors, batches, key))
            && (key !in order ==>
                  && (key in out <==>
                        && key in output
                        && !exists c :: c in order && BatchOf(batches, c) != [] && HasPrefix(key, c + SEP))
                  && (key in out ==> out[key] == output[key]))
  {
    if order != [] {
      var n := |order| - 1;
      var front, last := order[..n], order[n];
      assert forall c :: c in order <==> c in front || c == last;
      CollectedEntry(output, batches, collectors, front, key);
      if key in order {
        CleanKeyHasNoBatchPrefix(last, key);
      }
    }
  }

  /** The entry that Run's result should hold for a key: the collector's answer on the chunk
      responses in order, or the answer of the job that the key names, unless that job is a
      chunk of a step with a collector. */
  ghost function Expected(su: Setup, ans: Answer, key: string): Option<Response> {
    if key in su.collectors then
      var r := su.collectors[key](key, ChunkResponses(su, key, ans));
      Some(Response(r.output, r.err, true))
    else
      match JobFor(su, key)
      case None => None
      case Some(j) =>
        if IsChunked(su, j.stepKey) && j.stepKey in su.collectors then None else Some(ans(key))
  }

  /** Run's result on a full log: the same map for every iteration order of the step map and of
      the collector map, and every order of completion. */
  lemma FullRunResult(
    su: Setup, order: seq<string>, log: seq<Scheduler.Entry>, ans: Answer, collectorOrder: seq<string>, key: string)
    requires WellKeyed(su) && IsOrder(order, su.steps.Keys) && IsOrder(collectorOrder, su.collectors.Keys)
    requires FullLog(JobsOf(su, order), log, ans)
    ensures var st := RecordAll(Records(JobsOf(su, order), log));
            var out := CollectAll(st.output, st.batches, su.collectors, st.output.Keys, collectorOrder);
            && (key in out <==> Expected(su, ans, key).Some?)
            && (key in out ==> out[key] == Expected(su, ans, key).value)
  {
    hide JobFor;
    hide ParseBatchKey;
    var st := RecordAll(Records(JobsOf(su, order), log));
    CollectedEntry(st.output, st.batches, su.collectors, collectorOrder, key);
    RecordedOutput(su, order, log, ans, key);
    if key in su.collectors {
      RecordedBatches(su, order, log, ans, key);
    } else if JobFor(su, key).Some? {
      DeletedByOwnCollector(su, order, log, ans, collectorOrder, key);
    }
  }

  lemma DeletedByOwnCollector(
    su: Setup, order: seq<string>, log: seq<Scheduler.Entry>, ans: Answer, collectorOrder: seq<string>, key: string)
    requires WellKeyed(su) && IsOrder(order, su.steps.Keys) && IsOrder(collectorOrder, su.collectors.Keys)
    requires FullLog(JobsOf(su, order), log, ans) && JobFor(su, key).Some?
    ensures var batches := RecordAll(Records(JobsOf(su, order), log)).batches;
            var step := JobFor(su, key).value.stepKey;
            (exists c :: c in collectorOrder && BatchOf(batches, c) != [] && HasPrefix(key, c + SEP))
            <==> IsChunked(su, step) && step in su.collectors
  {
    hide JobFor;
    hide ParseBatchKey;
    var batches := RecordAll(Records(JobsOf(su, order), log)).batches;
    NamedJobExists(su, key);
    var j := JobFor(su, key).value;
    var step := j.stepKey;
    RecordedBatches(su, order, log, ans, step);
    forall c | c in collectorOrder && HasPrefix(key, c + SEP) ensures c == step {
      PrefixOwner(su, j, c);
    }
    if IsChunked(su, step) && step in su.collectors {
      ParsedKeyIsChunk(su, j);
      PrefixSelectsOwnStep(step, step, Decimal(ParseBatchKey(key).value.index));
      FlattenChunked(ItemsOf(su.batchInput, step), su.opt.batchSize);
      assert step in collectorOrder && BatchOf(batches, step) != [] && HasPrefix(key, step + SEP);
    }
  }

  lemma PrefixOwner(su: Setup, j: Job, c: string)
    requires WellKeyed(su) && Clean(c) && j.stepKey in su.steps && j in JobsOfStep(su, j.stepKey)
    requires HasPrefix(j.processKey, c + SEP)
    ensures c == j.stepKey
  {
    var jobs := JobsOfStep(su, j.stepKey);
    var i :| 0 <= i < |jobs| && jobs[i] == j;
    if IsChunked(su, j.stepKey) {
      PrefixSelectsOwnStep(c, j.stepKey, Decimal(i + 1));
    } else if ItemsOf(su.batchInput, j.stepKey) == [] {
      CleanKeyHasNoBatchPrefix(c, j.stepKey);
    } else {
      PrefixSelectsOwnStep(c, j.stepKey, "all");
    }
  }

  // ------------------------------------------------ from executions to results

  ghost function ConfigOf(su: Setup, order: seq<string>, workers: nat): Scheduler.Config
    requires IsOrder(order, su.steps.Keys)
  {
    Scheduler.Config(|JobsOf(su, order)|, workers, su.opt.blockError)
  }

  /** The concurrent part of Run, run to its end under some interleaving. */
  ghost predicate CompleteRun(su: Setup, order: seq<string>, workers: nat, actions: seq<Scheduler.Action>)
    requires IsOrder(order, su.steps.Keys)
  {
    var c := ConfigOf(su, order, workers);
    Scheduler.Legal(c, Scheduler.Init(c), actions) && Scheduler.Maximal(c, Scheduler.Init(c), actions)
  }

  ghost function LogOf(su: Setup, order: seq<string>, workers: nat, actions: seq<Scheduler.Action>)
    : seq<Scheduler.Entry>
    requires IsOrder(order, su.steps.Keys) && CompleteRun(su, order, workers, actions)
  {
    var c := ConfigOf(su, order, workers);
    Scheduler.After(c, Scheduler.Init(c), actions).log
  }

  /** The map that Run returns when its concurrent part made these recordResponse calls. */
  ghost function Output(su: Setup, order: seq<string>, log: seq<Scheduler.Entry>, collectorOrder: seq<string>)
    : map<string, Response>
    requires IsOrder(order, su.steps.Keys) && IsOrder(collectorOrder, su.collectors.Keys)
    requires forall k :: 0 <= k < |log| ==> log[k].job < |JobsOf(su, order)|
  {
    var st := RecordAll(Records(JobsOf(su, order), log));
    CollectAll(st.output, st.batches, su.collectors, st.output.Keys, collectorOrder)
  }

  /** The response that a complete log holds for each process key. */
  ghost function LoggedAnswer(jobs: seq<Job>, log: seq<Scheduler.Entry>): Answer
    requires forall k :: 0 <= k < |log| ==> log[k].job < |jobs|
  {
    var rs := Records(jobs, log);
    key => match LastFor(rs, key) case Some(r) => r case None => ZERO
  }

  lemma CompleteLogHasAnswers(su: Setup, order: seq<string>, log: seq<Scheduler.Entry>)
    requires WellKeyed(su) && IsOrder(order, su.steps.Keys)
    requires Scheduler.CompleteLog(Scheduler.Config(|JobsOf(su, order)|, 0, false), log)
    ensures FullLog(JobsOf(su, order), log, LoggedAnswer(JobsOf(su, order), log))
  {
    var jobs := JobsOf(su, order);
    var rs := Records(jobs, log);
    RecordKeysDistinct(su, order, log);
    forall k | 0 <= k < |log| ensures log[k].resp == LoggedAnswer(jobs, log)(jobs[log[k].job].processKey) {
      LastForRecorded(rs, k);
    }
  }

  /** Every run to the end, whatever failed, was cancelled or was skipped: the result depends only
      on the response of each job, not on the interleaving or on any map's iteration order. */
  lemma AnyRunResult(
    su: Setup, order: seq<string>, workers: nat, actions: seq<Scheduler.Action>,
    collectorOrder: seq<string>, key: string)
    requires WellKeyed(su) && workers >= 1
    requires IsOrder(order, su.steps.Keys) && IsOrder(collectorOrder, su.collectors.Keys)
    requires CompleteRun(su, order, workers, actions)
    ensures var log := LogOf(su, order, workers, actions);
            && (forall k :: 0 <= k < |log| ==> log[k].job < |JobsOf(su, order)|)
            && FullLog(JobsOf(su, order), log, LoggedAnswer(JobsOf(su, order), log))
            && var expected := Expected(su, LoggedAnswer(JobsOf(su, order), log), key);
               var out := Output(su, order, log, collectorOrder);
            && (key in out <==> expected.Some?)
            && (key in out ==> out[key] == expected.value)
  {
    var log := LogOf(su, order, workers, actions);
    Scheduler.MaximalExecutionsComplete(ConfigOf(su, order, workers), actions);
    CompleteLogHasAnswers(su, order, log);
    FullRunResult(su, order, log, LoggedAnswer(JobsOf(su, order), log), collectorOrder, key);
  }

  /** The two process lists of a run to the end: free of repeats, disjoint, and together exactly the
      keys of the jobs that were executed.  When the caller never cancels and no failure is listed,
      every job was executed and succeeded. */
  lemma RunAccounting(su: Setup, order: seq<string>, workers: nat, actions: seq<Scheduler.Action>)
    requires WellKeyed(su) && workers >= 1 && IsOrder(order, su.steps.Keys)
    requires CompleteRun(su, order, workers, actions)
    ensures var log := LogOf(su, order, workers, actions);
            && (forall k :: 0 <= k < |log| ==> log[k].job < |JobsOf(su, order)|)
            && var st, ans := RecordAll(Records(JobsOf(su, order), log)), LoggedAnswer(JobsOf(su, order), log);
            && NoRepeats(st.success) && NoRepeats(st.failed)
            && (forall key :: key in st.success <==>
                  JobFor(su, key).Some? && ans(key).isExecute && ans(key).err == None)
            && (forall key :: key in st.failed <==>
                  JobFor(su, key).Some? && ans(key).isExecute && ans(key).err != None)
            && (Scheduler.NoParentCancel(actions) && st.failed == [] ==>
                 forall key :: JobFor(su, key).Some? ==> key in st.success)
  {
    hide JobFor;
    var log := LogOf(su, order, workers, actions);
    Scheduler.MaximalExecutionsComplete(ConfigOf(su, order, workers), actions);
    CompleteLogHasAnswers(su, order, log);
    var ans := LoggedAnswer(JobsOf(su, order), log);
    AccountingOf(su, order, log, ans);
    var rs := Records(JobsOf(su, order), log);
    if Scheduler.NoParentCancel(actions) && RecordAll(rs).failed == [] {
      forall k | 0 <= k < |log| ensures !log[k].resp.Failed() {
        assert rs[k].key !in RecordAll(rs).failed;
      }
      assert Scheduler.NoFailure(log);
      Scheduler.NoFailureMeansAllSucceeded(ConfigOf(su, order, workers), actions);
      forall key | JobFor(su, key).Some? ensures key in RecordAll(rs).success {
        KeyIsRecorded(su, order, log, ans, key);
        var k :| 0 <= k < |log| && rs[k].key == key;
        assert log[k].resp.Succeeded();
      }
    }
  }

  lemma AccountingOf(su: Setup, order: seq<string>, log: seq<Scheduler.Entry>, ans: Answer)
    requires WellKeyed(su) && IsOrder(order, su.steps.Keys) && FullLog(JobsOf(su, order), log, ans)
    ensures var rs := Records(JobsOf(su, order), log);
            var st := RecordAll(rs);
            && |rs| == |log| && NoRepeats(st.success) && NoRepeats(st.failed)
            && (forall k :: 0 <= k < |rs| ==> rs[k].resp == log[k].resp)
            && (forall k :: 0 <= k < |rs| && rs[k].resp.Failed() ==> rs[k].key in st.failed)
            && (forall k :: 0 <= k < |rs| && rs[k].resp.Succeeded() ==> rs[k].key in st.success)
            && (forall key :: key in st.success <==> JobFor(su, key).Some? && ans(key).Succeeded())
            && (forall key :: key in st.failed <==> JobFor(su, key).Some? && ans(key).Failed())
  {
    hide JobFor, RecordAll;
    var rs := Records(JobsOf(su, order), log);
    RecordsAreJobs(su, order, log, ans);
    ProcessAccounting(rs);
    forall key | JobFor(su, key).Some? ensures exists k :: 0 <= k < |rs| && rs[k].key == key && rs[k].resp == ans(key) {
      var k :| 0 <= k < |rs| && rs[k].key == key;
      assert rs[k].resp == ans(rs[k].key);
    }
  }

  // -------------------------------------------------- the sequential reference

  /** Evaluating each step function once, on the input of its job. */
  ghost function Sequential(su: Setup): Answer {
    key => match JobFor(su, key) case Some(j) => Execute(j) case None => ZERO
  }

  ghost function ExecutedAll(jobs: seq<Job>): seq<Response> {
    seq(|jobs|, i requires 0 <= i < |jobs| => Execute(jobs[i]))
  }

  /** Nothing stops the run early: it does not block on errors, or nobody cancels and no step fails. */
  ghost predicate Undisturbed(su: Setup, order: seq<string>, actions: seq<Scheduler.Action>)
    requires IsOrder(order, su.steps.Keys)
  {
    su.opt.blockError ==>
      Scheduler.NoParentCancel(actions)
      && forall i :: 0 <= i < |JobsOf(su, order)| ==> Execute(JobsOf(su, order)[i]).err.None?
  }

  lemma UndisturbedLog(su: Setup, order: seq<string>, workers: nat, actions: seq<Scheduler.Action>)
    requires WellKeyed(su) && workers >= 1 && IsOrder(order, su.steps.Keys)
    requires CompleteRun(su, order, workers, actions) && Undisturbed(su, order, actions)
    requires Scheduler.Answers(actions, ExecutedAll(JobsOf(su, order)))
    ensures FullLog(JobsOf(su, order), LogOf(su, order, workers, actions), Sequential(su))
  {
    var jobs := JobsOf(su, order);
    var c := ConfigOf(su, order, workers);
    var log := LogOf(su, order, workers, actions);
    Scheduler.MaximalExecutionsComplete(c, actions);
    Scheduler.LogHoldsAnswers(c, actions, ExecutedAll(jobs));
    if c.blockError {
      assert Scheduler.NoFailure(log);
      Scheduler.NoFailureMeansAllSucceeded(c, actions);
    } else {
      Scheduler.NoBlockErrorExecutesAll(c, actions);
    }
    forall k | 0 <= k < |log| ensures log[k].resp == Sequential(su)(jobs[log[k].job].processKey) {
      assert log[k].resp.isExecute;
      JobIsScheduled(su, order, jobs[log[k].job]);
    }
  }

  /** The main theorem: for every interleaving, worker count and map iteration order, Run returns
      the map that evaluating each step once, sequentially, would give. */
  lemma RunMeansSequential(
    su: Setup, order: seq<string>, workers: nat, actions: seq<Scheduler.Action>,
    collectorOrder: seq<string>, key: string)
    requires WellKeyed(su) && workers >= 1
    requires IsOrder(order, su.steps.Keys) && IsOrder(collectorOrder, su.collectors.Keys)
    requires CompleteRun(su, order, workers, actions) && Undisturbed(su, order, actions)
    requires Scheduler.Answers(actions, ExecutedAll(JobsOf(su, order)))
    ensures var log := LogOf(su, order, workers, actions);
            && FullLog(JobsOf(su, order), log, Sequential(su))
            && var expected := Expected(su, Sequential(su), key);
               var out := Output(su, order, log, collectorOrder);
            && (key in out <==> expected.Some?)
            && (key in out ==> out[key] == expected.value)
  {
    UndisturbedLog(su, order, workers, actions);
    FullRunResult(su, order, LogOf(su, order, workers, actions), Sequential(su), collectorOrder, key);
  }

  // ---------------------------------------------------- batching keeps meaning

  /** F maps lists to lists and may be computed piecewise. */
  ghost predicate Homomorphism(F: seq<Value> -> seq<Value>) {
    forall xs, ys :: SplitsAt(F, xs, ys)
  }

  ghost predicate SplitsAt(F: seq<Value> -> seq<Value>, xs: seq<Value>, ys: seq<Value>) {
    F(xs + ys) == F(xs) + F(ys)
  }

  ghost predicate AppliesToLists(fn: StepFn, F: seq<Value> -> seq<Value>) {
    forall xs :: fn(List(xs)) == Result(List(F(xs)), None)
  }

  ghost predicate ListResponses(rs: seq<Response>) {
    forall i :: 0 <= i < |rs| ==> rs[i].Succeeded() && rs[i].output.List?
  }

  ghost function Joined(rs: seq<Response>): seq<Value>
    requires ListResponses(rs)
  {
    if rs == [] then [] else rs[0].output.items + Joined(rs[1..])
  }

  /** The collector concatenates responses that all succeeded with a list. */
  ghost predicate Concatenates(collector: Collector, step: string) {
    forall rs: seq<Response> :: ListResponses(rs) ==> collector(step, rs) == Result(List(Joined(rs)), None)
  }

  lemma {:induction false} JoinedChunks(F: seq<Value> -> seq<Value>, chunks: seq<seq<Value>>, rs: seq<Response>)
    requires Homomorphism(F) && |rs| == |chunks|
    requires forall i :: 0 <= i < |rs| ==> rs[i] == Response(List(F(chunks[i])), None, true)
    ensures ListResponses(rs) && Joined(rs) == F(Flatten(chunks))
  {
    if rs == [] {
      var none: seq<Value> := [];
      assert SplitsAt(F, none, none) && none + none == none;
      assert |F(none)| == 0;
    } else {
      JoinedChunks(F, chunks[1..], rs[1..]);
      assert SplitsAt(F, chunks[0], Flatten(chunks[1..]));
    }
  }

  /** A step that is a list homomorphism, split into chunks of any size and merged by a
      concatenating collector, answers as the one unsplit call on all its items would. */
  lemma BatchingKeepsMeaning(su: Setup, step: string, F: seq<Value> -> seq<Value>)
    requires WellKeyed(su) && IsChunked(su, step) && step in su.collectors
    requires Homomorphism(F) && AppliesToLists(su.steps[step], F) && Concatenates(su.collectors[step], step)
    ensures var items := ItemsOf(su.batchInput, step);
            && Expected(su, Sequential(su), step) == Some(Response(List(F(items)), None, true))
            && Expected(su, Sequential(su), step) == Some(Execute(Job(AllKey(step), step, List(items), su.steps[step])))
  {
    hide JobFor;
    var items := ItemsOf(su.batchInput, step);
    var chunks := ChunksOf(su, step);
    var rs := ChunkResponses(su, step, Sequential(su));
    forall i | 0 <= i < |rs| ensures rs[i] == Response(List(F(chunks[i])), None, true) {
      KeyNamesJob(su, step, i);
    }
    JoinedChunks(F, chunks, rs);
    FlattenChunked(items, su.opt.batchSize);
    assert su.collectors[step](step, rs) == Result(List(Joined(rs)), None);
  }

  /** The whole of it: what Run returns for the step, under every interleaving, worker count, batch
      size and map order, is the function applied to the concatenation of everything added for it. */
  lemma BatchedRunKeepsMeaning(
    su: Setup, order: seq<string>, workers: nat, actions: seq<Scheduler.Action>, collectorOrder: seq<string>,
    calls: seq<BatchCall>, step: string, F: seq<Value> -> seq<Value>)
    requires WellKeyed(su) && workers >= 1
    requires IsOrder(order, su.steps.Keys) && IsOrder(collectorOrder, su.collectors.Keys)
    requires CompleteRun(su, order, workers, actions) && Undisturbed(su, order, actions)
    requires Scheduler.Answers(actions, ExecutedAll(JobsOf(su, order)))
    requires su.batchInput == AddedAll(map[], calls) && step != ""
    requires IsChunked(su, step) && step in su.collectors
    requires Homomorphism(F) && AppliesToLists(su.steps[step], F) && Concatenates(su.collectors[step], step)
    ensures var log := LogOf(su, order, workers, actions);
            && (forall k :: 0 <= k < |log| ==> log[k].job < |JobsOf(su, order)|)
            && var out := Output(su, order, log, collectorOrder);
               step in out && out[step] == Response(List(F(ItemsFor(calls, step))), None, true)
  {
    hide Output, Homomorphism, AppliesToLists, Concatenates, Expected;
    RunMeansSequential(su, order, workers, actions, collectorOrder, step);
    BatchingKeepsMeaning(su, step, F);
    BatchIsConcatenation(map[], calls, step);
    assert ItemsOf(su.batchInput, step) == ItemsFor(calls, step);
  }

  ghost function SetupOf(g: Goroutine): Setup
    reads g
  {
    Setup(g.steps, g.input, g.batchInput, g.activeOption, g.batchCollectors)
  }

  /** Run on the object, when its concurrent part makes the recordResponse calls of an execution that
      the scheduler allows: it returns the map the theorems speak of. */
  method RunScheduled(
    g: Goroutine, order: seq<string>, workers: nat, ghost actions: seq<Scheduler.Action>,
    log: seq<Scheduler.Entry>, collectorOrder: seq<string>)
    returns (out: map<string, Response>)
    requires WellKeyed(SetupOf(g)) && workers >= 1
    requires IsOrder(order, g.steps.Keys) && IsOrder(collectorOrder, g.batchCollectors.Keys)
    requires CompleteRun(SetupOf(g), order, workers, actions) && log == LogOf(SetupOf(g), order, workers, actions)
    modifies g
    ensures SetupOf(g) == old(SetupOf(g))
    ensures forall k :: 0 <= k < |log| ==> log[k].job < |JobsOf(SetupOf(g), order)|
    ensures out == g.outputResp == Output(SetupOf(g), order, log, collectorOrder)
    ensures var st := RecordAll(Records(JobsOf(SetupOf(g), order), log));
            g.successProcess == st.success && g.failedProcess == st.failed && g.batchResults == st.batches
  {
    ghost var su := SetupOf(g);
    Scheduler.MaximalExecutionsComplete(ConfigOf(su, order, workers), actions);
    out := g.Run(order, log, collectorOrder);
  }

  /** Without a batch size the collector is handed no responses at all, and the batch's own
      entry stays: the merged entry is the collector's answer to an empty list. */
  lemma UnsplitBatchIsNotCollected(su: Setup, step: string)
    requires WellKeyed(su) && step in su.steps && step in su.collectors
    requires ItemsOf(su.batchInput, step) != [] && !Splits(su.opt)
    ensures var r := su.collectors[step](step, []);
            Expected(su, Sequential(su), step) == Some(Response(r.output, r.err, true))
    ensures Expected(su, Sequential(su), AllKey(step))
            == Some(Execute(Job(AllKey(step), step, List(ItemsOf(su.batchInput, step)), su.steps[step])))
  {
    KeyNamesJob(su, step, 0);
    var key := AllKey(step);
    assert !Clean(key) by {
      assert key[|step|..|step| + |SEP|] == SEP;
      assert OccursAt(key, SEP, |step|);
    }
  }
}
