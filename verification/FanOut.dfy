/** Whole runs of the ordered fan-out: every interleaving that the Scheduler allows, every worker
    count and every map order. */
module FanOut {
  import opened Text
  import opened Responses
  import opened Jobs
  import opened Orchestrator
  import Scheduler
  import Sequential

  datatype Setup = Setup(
    steps: map<string, StepFn>, singleInput: map<string, Value>, batchInput: map<string, seq<Value>>)

  ghost predicate Orders(su: Setup, singleOrder: seq<string>, batchOrder: seq<string>) {
    IsOrder(singleOrder, su.singleInput.Keys) && IsOrder(batchOrder, su.batchInput.Keys)
  }

  ghost function JobsOf(su: Setup, singleOrder: seq<string>, batchOrder: seq<string>): seq<FanJob>
    requires Orders(su, singleOrder, batchOrder)
  {
    SingleJobs(singleOrder, su.singleInput, su.steps) + BatchJobs(batchOrder, su.batchInput, su.steps)
  }

  ghost predicate SingleJobOk(j: FanJob, order: seq<string>, input: map<string, Value>, steps: map<string, StepFn>) {
    j.key in order && j.key in input && j.key in steps && j == FanJob(j.key, -1, input[j.key], steps[j.key])
  }

  ghost predicate BatchJobOk(
    j: FanJob, order: seq<string>, inputs: map<string, seq<Value>>, steps: map<string, StepFn>)
  {
    && j.key in order && j.key in inputs && j.key in steps && 0 <= j.batchIndex < |inputs[j.key]|
    && j == FanJob(j.key, j.batchIndex, inputs[j.key][j.batchIndex], steps[j.key])
  }

  ghost predicate SinglesOk(
    jobs: seq<FanJob>, order: seq<string>, input: map<string, Value>, steps: map<string, StepFn>)
  {
    && (forall a :: 0 <= a < |jobs| ==> SingleJobOk(jobs[a], order, input, steps))
    && (forall a, b :: 0 <= a < b < |jobs| ==> jobs[a].key != jobs[b].key)
  }

  ghost predicate BatchesOk(
    jobs: seq<FanJob>, order: seq<string>, inputs: map<string, seq<Value>>, steps: map<string, StepFn>)
  {
    && (forall a :: 0 <= a < |jobs| ==> BatchJobOk(jobs[a], order, inputs, steps))
    && (forall a, b :: 0 <= a < b < |jobs| && jobs[a].key == jobs[b].key ==> jobs[a].batchIndex != jobs[b].batchIndex)
  }

  lemma {:induction false} SingleJobsOk(order: seq<string>, input: map<string, Value>, steps: map<string, StepFn>)
    requires NoRepeats(order) && forall k :: k in order ==> k in input
    ensures SinglesOk(SingleJobs(order, input, steps), order, input, steps)
  {
    if order != [] {
      var n := |order| - 1;
      var front, jobs := SingleJobs(order[..n], input, steps), SingleJobs(order, input, steps);
      SingleJobsOk(order[..n], input, steps);
      forall a | 0 <= a < |front| ensures SingleJobOk(front[a], order, input, steps) && front[a].key != order[n] {
        assert SingleJobOk(front[a], order[..n], input, steps);
      }
    }
  }

  lemma {:induction false} SingleJobQueued(
    order: seq<string>, input: map<string, Value>, steps: map<string, StepFn>, k: string)
    requires (forall k :: k in order ==> k in input) && k in order && k in steps
    ensures FanJob(k, -1, input[k], steps[k]) in SingleJobs(order, input, steps)
  {
    var n := |order| - 1;
    if order[n] != k {
      SingleJobQueued(order[..n], input, steps, k);
    }
  }

  lemma {:induction false} BatchJobsOk(order: seq<string>, inputs: map<string, seq<Value>>, steps: map<string, StepFn>)
    requires NoRepeats(order) && forall k :: k in order ==> k in inputs
    ensures BatchesOk(BatchJobs(order, inputs, steps), order, inputs, steps)
  {
    if order != [] {
      var n := |order| - 1;
      var k := order[n];
      var front := BatchJobs(order[..n], inputs, steps);
      BatchJobsOk(order[..n], inputs, steps);
      forall a | 0 <= a < |front| ensures BatchJobOk(front[a], order, inputs, steps) && front[a].key != k {
        assert BatchJobOk(front[a], order[..n], inputs, steps);
      }
      if k in steps {
        var more := ItemJobs(k, inputs[k], steps[k], |inputs[k]|);
        forall i | 0 <= i < |more| ensures BatchJobOk(more[i], order, inputs, steps) {}
        assert BatchJobs(order, inputs, steps) == front + more;
      }
    }
  }

  lemma {:induction false} BatchJobQueued(
    order: seq<string>, inputs: map<string, seq<Value>>, steps: map<string, StepFn>, k: string, i: nat)
    requires (forall k :: k in order ==> k in inputs) && k in order && k in steps && i < |inputs[k]|
    ensures FanJob(k, i, inputs[k][i], steps[k]) in BatchJobs(order, inputs, steps)
  {
    var n := |order| - 1;
    if order[n] != k {
      BatchJobQueued(order[..n], inputs, steps, k, i);
    } else {
      var more := ItemJobs(k, inputs[k], steps[k], |inputs[k]|);
      assert more[i] in more;
    }
  }

  /** A registered key that has both a single input and a batch of at least one item. */
  ghost predicate UsedBothWays(su: Setup, key: string) {
    key in su.steps && key in su.singleInput && key in su.batchInput && su.batchInput[key] != []
  }

  /** All jobs have places of their own exactly when no key is used both ways. */
  lemma JobsHaveOwnPlaces(su: Setup, singleOrder: seq<string>, batchOrder: seq<string>)
    requires Orders(su, singleOrder, batchOrder)
    ensures OwnPlaces(JobsOf(su, singleOrder, batchOrder)) <==> forall key :: !UsedBothWays(su, key)
  {
    SingleJobsOk(singleOrder, su.singleInput, su.steps);
    BatchJobsOk(batchOrder, su.batchInput, su.steps);
    var singles := SingleJobs(singleOrder, su.singleInput, su.steps);
    var batches := BatchJobs(batchOrder, su.batchInput, su.steps);
    forall key | UsedBothWays(su, key) ensures !OwnPlaces(singles + batches) {
      SharedPlace(su, singleOrder, batchOrder, key);
    }
    hide SingleJobs, BatchJobs;
    if forall key :: !UsedBothWays(su, key) {
      forall a, b | 0 <= a < |singles| && 0 <= b < |batches| ensures singles[a].key != batches[b].key {
        assert SingleJobOk(singles[a], singleOrder, su.singleInput, su.steps);
        assert BatchJobOk(batches[b], batchOrder, su.batchInput, su.steps);
        assert !UsedBothWays(su, singles[a].key);
      }
      TwoKinds(singles, batches);
    }
  }

  lemma SharedPlace(su: Setup, singleOrder: seq<string>, batchOrder: seq<string>, key: string)
    requires Orders(su, singleOrder, batchOrder) && UsedBothWays(su, key)
    ensures !OwnPlaces(JobsOf(su, singleOrder, batchOrder))
  {
    SingleJobQueued(singleOrder, su.singleInput, su.steps, key);
    BatchJobQueued(batchOrder, su.batchInput, su.steps, key, 0);
    hide SingleJobs, BatchJobs;
    var jobs := JobsOf(su, singleOrder, batchOrder);
    var a := JobIndex(jobs, FanJob(key, -1, su.singleInput[key], su.steps[key]));
    var b := JobIndex(jobs, FanJob(key, 0, su.batchInput[key][0], su.steps[key]));
  }

  lemma TwoKinds(singles: seq<FanJob>, batches: seq<FanJob>)
    requires forall a, b :: 0 <= a < b < |singles| ==> singles[a].key != singles[b].key
    requires forall a :: 0 <= a < |batches| ==> batches[a].batchIndex != -1
    requires forall a, b :: 0 <= a < b < |batches| && batches[a].key == batches[b].key ==>
               batches[a].batchIndex != batches[b].batchIndex
    requires forall a, b :: 0 <= a < |singles| && 0 <= b < |batches| ==> singles[a].key != batches[b].key
    ensures OwnPlaces(singles + batches)
  {
    var jobs, n := singles + batches, |singles|;
    assert forall a :: 0 <= a < n ==> jobs[a] == singles[a];
    assert forall a :: n <= a < |jobs| ==> jobs[a] == batches[a - n];
  }

  lemma {:induction false} AllocatedEntry(
    results: map<string, Value>, order: seq<string>, inputs: map<string, seq<Value>>,
    steps: map<string, StepFn>, key: string)
    requires forall k :: k in order ==> k in inputs
    ensures var after := Allocated(results, order, inputs, steps);
            if key in order && key in steps then key in after && after[key] == List(seq(|inputs[key]|, _ => Nil))
            else (key in after <==> key in results) && (key in after ==> after[key] == results[key])
  {
    if order != [] {
      AllocatedEntry(results, order[..|order| - 1], inputs, steps, key);
    }
  }

  ghost predicate CompleteRun(
    su: Setup, singleOrder: seq<string>, batchOrder: seq<string>, workers: nat, actions: seq<Scheduler.Action>)
    requires Orders(su, singleOrder, batchOrder)
  {
    var jobs := JobsOf(su, singleOrder, batchOrder);
    var c := Scheduler.Config(|jobs|, workers, false);
    && Scheduler.Legal(c, Scheduler.Init(c), actions) && Scheduler.Maximal(c, Scheduler.Init(c), actions)
    && Scheduler.Answers(actions, Answers(jobs))
  }

  ghost function LogOf(
    su: Setup, singleOrder: seq<string>, batchOrder: seq<string>, workers: nat,
    actions: seq<Scheduler.Action>): seq<Scheduler.Entry>
    requires Orders(su, singleOrder, batchOrder) && CompleteRun(su, singleOrder, batchOrder, workers, actions)
  {
    var c := Scheduler.Config(|JobsOf(su, singleOrder, batchOrder)|, workers, false);
    Scheduler.After(c, Scheduler.Init(c), actions).log
  }

  /** The answer of a handler on its input. */
  function Handled(j: FanJob): Response {
    var r := j.handler(j.input);
    Response(r.output, r.err, true)
  }

  ghost function Answers(jobs: seq<FanJob>): seq<Response> {
    seq(|jobs|, i requires 0 <= i < |jobs| => Handled(jobs[i]))
  }

  /** A log of a run to the end: each job once, with its handler's answer. */
  ghost predicate FullLog(jobs: seq<FanJob>, log: seq<Scheduler.Entry>) {
    && LogOver(jobs, log) && OnceEach(log)
    && (forall k :: 0 <= k < |log| ==> log[k].resp == Handled(jobs[log[k].job]))
    && (forall a :: 0 <= a < |jobs| ==> Scheduler.InLog(log, a))
  }

  lemma CompleteIsFull(
    su: Setup, singleOrder: seq<string>, batchOrder: seq<string>, workers: nat, actions: seq<Scheduler.Action>)
    requires Orders(su, singleOrder, batchOrder) && workers >= 1
    requires CompleteRun(su, singleOrder, batchOrder, workers, actions)
    ensures FullLog(JobsOf(su, singleOrder, batchOrder), LogOf(su, singleOrder, batchOrder, workers, actions))
  {
    hide SingleJobs, BatchJobs, Scheduler.Legal, Scheduler.After, Scheduler.Maximal, Scheduler.Answers, Handled;
    var jobs := JobsOf(su, singleOrder, batchOrder);
    var c := Scheduler.Config(|jobs|, workers, false);
    Scheduler.MaximalExecutionsComplete(c, actions);
    Scheduler.NoBlockErrorExecutesAll(c, actions);
    Scheduler.LogHoldsAnswers(c, actions, Answers(jobs));
  }

  // ----------------------------------------------------- what the jobs are

  /** The answer of a key's handler on its single input, and on one of its batch. */
  ghost function SingleAnswer(su: Setup, key: string): (r: Response)
    requires key in su.steps && key in su.singleInput
    ensures var answer := su.steps[key](su.singleInput[key]); r == Response(answer.output, answer.err, true)
  {
    Handled(FanJob(key, -1, su.singleInput[key], su.steps[key]))
  }

  ghost function ItemAnswer(su: Setup, key: string, i: nat): (r: Response)
    requires key in su.steps && key in su.batchInput && i < |su.batchInput[key]|
    ensures var answer := su.steps[key](su.batchInput[key][i]); r == Response(answer.output, answer.err, true)
  {
    Handled(FanJob(key, i, su.batchInput[key][i], su.steps[key]))
  }

  ghost predicate SingleOk(su: Setup, key: string) {
    key in su.steps && key in su.singleInput && SingleAnswer(su, key).err.None?
  }

  ghost predicate ItemOk(su: Setup, key: string, i: nat) {
    key in su.steps && key in su.batchInput && i < |su.batchInput[key]| && ItemAnswer(su, key, i).err.None?
  }

  ghost predicate JobOk(su: Setup, j: FanJob) {
    && j.key in su.steps && j.handler == su.steps[j.key]
    && if j.batchIndex == -1 then j.key in su.singleInput && j.input == su.singleInput[j.key]
       else j.key in su.batchInput && 0 <= j.batchIndex < |su.batchInput[j.key]|
            && j.input == su.batchInput[j.key][j.batchIndex]
  }

  /** Every job is a single or an item of its key, no two are the same, and the singles come first. */
  lemma JobsAre(su: Setup, singleOrder: seq<string>, batchOrder: seq<string>)
    requires Orders(su, singleOrder, batchOrder)
    ensures JobsOk(su, JobsOf(su, singleOrder, batchOrder)) && Apart(JobsOf(su, singleOrder, batchOrder))
    ensures SinglesFirst(JobsOf(su, singleOrder, batchOrder))
  {
    SingleJobsOk(singleOrder, su.singleInput, su.steps);
    BatchJobsOk(batchOrder, su.batchInput, su.steps);
    var singles := SingleJobs(singleOrder, su.singleInput, su.steps);
    var batches := BatchJobs(batchOrder, su.batchInput, su.steps);
    hide SingleJobs, BatchJobs;
    forall a | 0 <= a < |singles| ensures JobOk(su, singles[a]) && singles[a].batchIndex == -1 {
      assert SingleJobOk(singles[a], singleOrder, su.singleInput, su.steps);
    }
    forall a | 0 <= a < |batches| ensures JobOk(su, batches[a]) && batches[a].batchIndex >= 0 {
      assert BatchJobOk(batches[a], batchOrder, su.batchInput, su.steps);
    }
    hide JobOk, SingleJobOk, BatchJobOk;
    var jobs, n := singles + batches, |singles|;
    assert forall a :: 0 <= a < n ==> jobs[a] == singles[a];
    assert forall a :: n <= a < |jobs| ==> jobs[a] == batches[a - n];
  }

  ghost predicate JobsOk(su: Setup, jobs: seq<FanJob>) { forall a :: 0 <= a < |jobs| ==> JobOk(su, jobs[a]) }

  ghost predicate SinglesFirst(jobs: seq<FanJob>) {
    forall a, b :: 0 <= a < |jobs| && 0 <= b < |jobs| && jobs[a].batchIndex == -1 && jobs[b].batchIndex != -1 ==> a < b
  }

  // ----------------------------------------------------- who succeeds where

  /** In the log of a run, a key's single comes before its item i. */
  ghost predicate SingleFirst(jobs: seq<FanJob>, log: seq<Scheduler.Entry>, key: string, i: nat) {
    exists p, k :: p < k && IsAt(jobs, log, p, key, -1) && IsAt(jobs, log, k, key, i)
  }

  lemma SingleSucceeds(su: Setup, jobs: seq<FanJob>, log: seq<Scheduler.Entry>, k: int, key: string)
    requires JobsOk(su, jobs) && FullLog(jobs, log)
    ensures IsAt(jobs, log, k, key, -1) ==>
              key in su.steps && key in su.singleInput && log[k].resp == SingleAnswer(su, key)
    ensures SucceedsAt(jobs, log, k, key, -1) ==> SingleOk(su, key)
  {
    hide Handled;
    if IsAt(jobs, log, k, key, -1) {
      assert jobs[log[k].job] == FanJob(key, -1, su.singleInput[key], su.steps[key]);
    }
  }

  lemma ItemSucceeds(su: Setup, jobs: seq<FanJob>, log: seq<Scheduler.Entry>, k: int, key: string, i: nat)
    requires JobsOk(su, jobs) && FullLog(jobs, log)
    ensures IsAt(jobs, log, k, key, i) ==>
              && key in su.steps && key in su.batchInput && i < |su.batchInput[key]|
              && log[k].resp == ItemAnswer(su, key, i)
    ensures SucceedsAt(jobs, log, k, key, i) ==> ItemOk(su, key, i)
  {
    hide Handled;
    if IsAt(jobs, log, k, key, i) {
      assert jobs[log[k].job] == FanJob(key, i, su.batchInput[key][i], su.steps[key]);
    }
  }

  lemma SingleIsLogged(
    su: Setup, singleOrder: seq<string>, batchOrder: seq<string>, log: seq<Scheduler.Entry>, key: string)
    returns (k: nat)
    requires Orders(su, singleOrder, batchOrder) && FullLog(JobsOf(su, singleOrder, batchOrder), log)
    requires key in su.steps && key in su.singleInput
    ensures IsAt(JobsOf(su, singleOrder, batchOrder), log, k, key, -1)
  {
    SingleJobQueued(singleOrder, su.singleInput, su.steps, key);
    hide SingleJobs, BatchJobs;
    var a := JobIndex(JobsOf(su, singleOrder, batchOrder), FanJob(key, -1, su.singleInput[key], su.steps[key]));
    assert Scheduler.InLog(log, a);
    k :| k < |log| && log[k].job == a;
  }

  lemma ItemIsLogged(
    su: Setup, singleOrder: seq<string>, batchOrder: seq<string>, log: seq<Scheduler.Entry>, key: string, i: nat)
    returns (k: nat)
    requires Orders(su, singleOrder, batchOrder) && FullLog(JobsOf(su, singleOrder, batchOrder), log)
    requires key in su.steps && key in su.batchInput && i < |su.batchInput[key]|
    ensures IsAt(JobsOf(su, singleOrder, batchOrder), log, k, key, i)
  {
    BatchJobQueued(batchOrder, su.batchInput, su.steps, key, i);
    hide SingleJobs, BatchJobs;
    var a := JobIndex(JobsOf(su, singleOrder, batchOrder), FanJob(key, i, su.batchInput[key][i], su.steps[key]));
    assert Scheduler.InLog(log, a);
    k :| k < |log| && log[k].job == a;
  }

  lemma JobIndex(jobs: seq<FanJob>, j: FanJob) returns (a: nat)
    requires j in jobs
    ensures a < |jobs| && jobs[a] == j
  {
    a :| 0 <= a < |jobs| && jobs[a] == j;
  }

  // -------------------------------------------------------- the main theorems

  ghost function StoreOf(
    su: Setup, before: map<string, Value>, singleOrder: seq<string>, batchOrder: seq<string>, log: seq<Scheduler.Entry>)
    : Store
    requires Orders(su, singleOrder, batchOrder) && LogOver(JobsOf(su, singleOrder, batchOrder), log)
  {
    StoredAll(Allocated(before, batchOrder, su.batchInput, su.steps), JobsOf(su, singleOrder, batchOrder), log)
  }

  /** A batch worker of this key would find a single answer without a slot for its item. */
  ghost predicate Unfit(su: Setup, key: string, i: nat) {
    SingleOk(su, key) && ItemOk(su, key, i) && !Fits(SingleAnswer(su, key).output, i)
  }

  lemma FoundNoSlot(su: Setup, jobs: seq<FanJob>, log: seq<Scheduler.Entry>, p: int, k: int)
    returns (key: string, i: nat)
    requires JobsOk(su, jobs) && FullLog(jobs, log) && FindsNoSlot(jobs, log, p, k)
    ensures Unfit(su, key, i) && SingleFirst(jobs, log, key, i)
  {
    hide Handled;
    var j := jobs[log[k].job];
    assert JobOk(su, j);
    key, i := j.key, j.batchIndex;
    SingleSucceeds(su, jobs, log, p, key);
    ItemSucceeds(su, jobs, log, k, key, i);
    assert IsAt(jobs, log, p, key, -1) && IsAt(jobs, log, k, key, i);
  }

  lemma UnfitFindsNoSlot(su: Setup, jobs: seq<FanJob>, log: seq<Scheduler.Entry>, key: string, i: nat)
    returns (p: int, k: int)
    requires JobsOk(su, jobs) && FullLog(jobs, log)
    requires Unfit(su, key, i) && SingleFirst(jobs, log, key, i)
    ensures FindsNoSlot(jobs, log, p, k)
  {
    hide Handled;
    p, k :| p < k && IsAt(jobs, log, p, key, -1) && IsAt(jobs, log, k, key, i);
    SingleSucceeds(su, jobs, log, p, key);
    ItemSucceeds(su, jobs, log, k, key, i);
  }

  lemma StartHasSlots(su: Setup, before: map<string, Value>, singleOrder: seq<string>, batchOrder: seq<string>)
    requires Orders(su, singleOrder, batchOrder)
    ensures HasSlots(Allocated(before, batchOrder, su.batchInput, su.steps), JobsOf(su, singleOrder, batchOrder))
  {
    var jobs := JobsOf(su, singleOrder, batchOrder);
    var start := Allocated(before, batchOrder, su.batchInput, su.steps);
    JobsAre(su, singleOrder, batchOrder);
    hide JobsOf;
    forall a | 0 <= a < |jobs| && jobs[a].batchIndex != -1
      ensures jobs[a].key in start && Fits(start[jobs[a].key], jobs[a].batchIndex)
    {
      AllocatedEntry(before, batchOrder, su.batchInput, su.steps, jobs[a].key);
      assert JobOk(su, jobs[a]);
    }
  }

  /** Some single that succeeds finishes before a succeeding item of its key for which its answer has
      no slot. */
  ghost predicate Clashes(su: Setup, jobs: seq<FanJob>, log: seq<Scheduler.Entry>) {
    exists key, i: nat :: Unfit(su, key, i) && SingleFirst(jobs, log, key, i)
  }

  lemma RunCrashesExactly(
    su: Setup, before: map<string, Value>, singleOrder: seq<string>, batchOrder: seq<string>, log: seq<Scheduler.Entry>)
    requires Orders(su, singleOrder, batchOrder) && FullLog(JobsOf(su, singleOrder, batchOrder), log)
    ensures StoreOf(su, before, singleOrder, batchOrder, log).Crashed?
            <==> Clashes(su, JobsOf(su, singleOrder, batchOrder), log)
  {
    var jobs := JobsOf(su, singleOrder, batchOrder);
    JobsAre(su, singleOrder, batchOrder);
    StartHasSlots(su, before, singleOrder, batchOrder);
    CrashesExactly(Allocated(before, batchOrder, su.batchInput, su.steps), jobs, log);
    hide JobsOf, StoredAll, Handled, Unfit, SingleFirst, FindsNoSlot, JobOk, Allocated;
    if p, k :| FindsNoSlot(jobs, log, p, k) {
      var key, i := FoundNoSlot(su, jobs, log, p, k);
    }
    if key: string, i: nat :| Unfit(su, key, i) && SingleFirst(jobs, log, key, i) {
      var p, k := UnfitFindsNoSlot(su, jobs, log, key, i);
    }
  }

  // What a run leaves under each key.

  /** A single's answer with the succeeding items of its key that finished after it written in. */
  ghost function Merged(su: Setup, jobs: seq<FanJob>, log: seq<Scheduler.Entry>, key: string, v: Value): Value {
    if v.List? then
      List(seq(|v.items|, i requires 0 <= i < |v.items| =>
        if ItemOk(su, key, i) && SingleFirst(jobs, log, key, i) then ItemAnswer(su, key, i).output else v.items[i]))
    else v
  }

  /** A batch's answers in input order, nil where one failed. */
  ghost function BatchAnswers(su: Setup, key: string): Value
    requires key in su.steps && key in su.batchInput
  {
    List(seq(|su.batchInput[key]|, i requires 0 <= i < |su.batchInput[key]| =>
      if ItemOk(su, key, i) then ItemAnswer(su, key, i).output else Nil))
  }

  ghost function FinalEntry(
    su: Setup, before: map<string, Value>, jobs: seq<FanJob>, log: seq<Scheduler.Entry>, key: string): Option<Value>
  {
    if SingleOk(su, key) then Some(Merged(su, jobs, log, key, SingleAnswer(su, key).output))
    else if key in su.steps && key in su.batchInput then Some(BatchAnswers(su, key))
    else EntryOf(before, key)
  }

  function EntryOf(results: map<string, Value>, key: string): Option<Value> {
    if key in results then Some(results[key]) else None
  }

  /** What the items of a key leave in a slot, in the part of a run's log from position n on. */
  lemma SlotAfter(su: Setup, jobs: seq<FanJob>, log: seq<Scheduler.Entry>, n: nat, key: string, i: nat, old_: Value)
    requires JobsOk(su, jobs) && Apart(jobs) && FullLog(jobs, log) && n <= |log|
    ensures (exists k :: n <= k && IsAt(jobs, log, k, key, i)) && ItemOk(su, key, i) ==>
              Written(jobs, log[n..], key, i, old_) == ItemAnswer(su, key, i).output
    ensures !((exists k :: n <= k && IsAt(jobs, log, k, key, i)) && ItemOk(su, key, i)) ==>
              Written(jobs, log[n..], key, i, old_) == old_
  {
    hide Handled, Written, ItemAnswer;
    var rest := log[n..];
    SlotHoldsAnswer(jobs, rest, key, i, old_);
    forall k | SucceedsAt(jobs, rest, k, key, i) ensures IsAt(jobs, log, n + k, key, i) && ItemOk(su, key, i) {
      ItemSucceeds(su, jobs, log, n + k, key, i);
    }
    if k :| n <= k && IsAt(jobs, log, k, key, i) {
      ItemSucceeds(su, jobs, log, k, key, i);
      assert rest[k - n] == log[k];
      assert ItemOk(su, key, i) ==> SucceedsAt(jobs, rest, k - n, key, i);
    }
  }

  lemma EntryAfterSingle(
    su: Setup, before: map<string, Value>, singleOrder: seq<string>, batchOrder: seq<string>,
    log: seq<Scheduler.Entry>, key: string)
    requires Orders(su, singleOrder, batchOrder) && FullLog(JobsOf(su, singleOrder, batchOrder), log)
    requires SingleOk(su, key)
    ensures var store, jobs := StoreOf(su, before, singleOrder, batchOrder, log), JobsOf(su, singleOrder, batchOrder);
            store.Live? ==>
              EntryOf(store.results, key) == Some(Merged(su, jobs, log, key, SingleAnswer(su, key).output))
  {
    var jobs := JobsOf(su, singleOrder, batchOrder);
    JobsAre(su, singleOrder, batchOrder);
    var p := SingleIsLogged(su, singleOrder, batchOrder, log, key);
    hide JobsOf, Allocated, Handled, StoredAll, JobOk;
    SingleSucceeds(su, jobs, log, p, key);
    SingleHoldsAnswer(Allocated(before, batchOrder, su.batchInput, su.steps), jobs, log, key, p);
    var v := SingleAnswer(su, key).output;
    if v.List? {
      forall i | 0 <= i < |v.items|
        ensures Written(jobs, log[p + 1..], key, i, v.items[i])
                == if ItemOk(su, key, i) && SingleFirst(jobs, log, key, i) then ItemAnswer(su, key, i).output
                   else v.items[i]
      {
        SlotAfter(su, jobs, log, p + 1, key, i, v.items[i]);
        FirstFrom(jobs, log, p, key, i);
      }
      assert Overlaid(jobs, log[p + 1..], key, v).items == Merged(su, jobs, log, key, v).items;
    }
  }

  lemma FirstFrom(jobs: seq<FanJob>, log: seq<Scheduler.Entry>, p: nat, key: string, i: nat)
    requires Apart(jobs) && OnceEach(log) && IsAt(jobs, log, p, key, -1)
    ensures SingleFirst(jobs, log, key, i) <==> exists k :: p + 1 <= k && IsAt(jobs, log, k, key, i)
  {
    if SingleFirst(jobs, log, key, i) {
      var q, k :| q < k && IsAt(jobs, log, q, key, -1) && IsAt(jobs, log, k, key, i);
      AtMostOnce(jobs, log, p, q, key, -1);
    }
  }

  lemma EntryWithoutOne(
    su: Setup, before: map<string, Value>, singleOrder: seq<string>, batchOrder: seq<string>,
    log: seq<Scheduler.Entry>, key: string)
    requires Orders(su, singleOrder, batchOrder) && FullLog(JobsOf(su, singleOrder, batchOrder), log)
    requires !SingleOk(su, key)
    ensures var store := StoreOf(su, before, singleOrder, batchOrder, log);
            store.Live? ==>
              EntryOf(store.results, key)
              == if key in su.steps && key in su.batchInput then Some(BatchAnswers(su, key)) else EntryOf(before, key)
  {
    var jobs := JobsOf(su, singleOrder, batchOrder);
    var start := Allocated(before, batchOrder, su.batchInput, su.steps);
    JobsAre(su, singleOrder, batchOrder);
    AllocatedEntry(before, batchOrder, su.batchInput, su.steps, key);
    hide Allocated, Handled, StoredAll, JobOk, SingleJobs, BatchJobs;
    forall k ensures !SucceedsAt(jobs, log, k, key, -1) {
      SingleSucceeds(su, jobs, log, k, key);
    }
    EntryWithoutSingle(start, jobs, log, key);
    if key in start && start[key].List? {
      var items := start[key].items;
      assert log[0..] == log;
      forall i | 0 <= i < |items|
        ensures Written(jobs, log, key, i, items[i])
                == if ItemOk(su, key, i) then ItemAnswer(su, key, i).output else items[i]
      {
        SlotAfter(su, jobs, log, 0, key, i, items[i]);
        if ItemOk(su, key, i) {
          var k := ItemIsLogged(su, singleOrder, batchOrder, log, key, i);
        }
      }
      var after := Overlaid(jobs, log, key, start[key]).items;
      if key in su.steps && key in su.batchInput {
        assert after == BatchAnswers(su, key).items;
      } else {
        assert after == items;
      }
    }
  }

  /** Every interleaving, worker count and map order: the run crashes exactly when some succeeding item
      finishes after a single of its key whose answer has no slot for it; otherwise each key, whatever
      happens under others, holds its batch's answers in input order or its single's answer with the
      later items written in, and there is one error for each failed job. */
  lemma OrderedFanOut(
    su: Setup, before: map<string, Value>, singleOrder: seq<string>, batchOrder: seq<string>, workers: nat,
    actions: seq<Scheduler.Action>)
    requires Orders(su, singleOrder, batchOrder) && workers >= 1
    requires CompleteRun(su, singleOrder, batchOrder, workers, actions)
    ensures var jobs := JobsOf(su, singleOrder, batchOrder);
            var log := LogOf(su, singleOrder, batchOrder, workers, actions);
            && FullLog(jobs, log)
            && var store := StoreOf(su, before, singleOrder, batchOrder, log);
            && (store.Crashed? <==> Clashes(su, jobs, log))
            && (store.Live? ==> forall key :: EntryOf(store.results, key) == FinalEntry(su, before, jobs, log, key))
            && |ErrorsOf(jobs, log)| == |FailingJobs(jobs)|
  {
    var jobs := JobsOf(su, singleOrder, batchOrder);
    var log := LogOf(su, singleOrder, batchOrder, workers, actions);
    CompleteIsFull(su, singleOrder, batchOrder, workers, actions);
    RunCrashesExactly(su, before, singleOrder, batchOrder, log);
    OneErrorPerFailure(jobs, log);
    FailuresOf(jobs, log);
    hide JobsOf, LogOf, StoreOf, CompleteRun, ErrorsOf, FullLog, Clashes, SingleOk, Merged, BatchAnswers;
    var store := StoreOf(su, before, singleOrder, batchOrder, log);
    forall key ensures store.Live? ==> EntryOf(store.results, key) == FinalEntry(su, before, jobs, log, key) {
      if SingleOk(su, key) {
        EntryAfterSingle(su, before, singleOrder, batchOrder, log, key);
      } else {
        EntryWithoutOne(su, before, singleOrder, batchOrder, log, key);
      }
    }
  }

  ghost function FailingJobs(jobs: seq<FanJob>): set<nat> {
    set j: nat | j < |jobs| && Handled(jobs[j]).err.Some?
  }

  lemma FailuresOf(jobs: seq<FanJob>, log: seq<Scheduler.Entry>)
    requires FullLog(jobs, log)
    ensures FailedJobs(log) == FailingJobs(jobs)
  {
    hide Handled;
    forall j | j in FailingJobs(jobs) ensures j in FailedJobs(log) {
      assert Scheduler.InLog(log, j);
    }
  }

  /** What a key should hold: its batch's answers in input order, or its single's answer, or what it
      held before. */
  ghost predicate InOrder(su: Setup, before: map<string, Value>, results: map<string, Value>, key: string) {
    EntryOf(results, key)
    == if key in su.steps && key in su.batchInput then Some(BatchAnswers(su, key))
       else if SingleOk(su, key) then Some(SingleAnswer(su, key).output)
       else EntryOf(before, key)
  }

  /** A key without both kinds of input is in order in every run that does not crash, whatever other
      keys do; and if no key is used both ways, no run crashes. */
  lemma UnsharedInOrder(
    su: Setup, before: map<string, Value>, singleOrder: seq<string>, batchOrder: seq<string>, log: seq<Scheduler.Entry>)
    requires Orders(su, singleOrder, batchOrder) && FullLog(JobsOf(su, singleOrder, batchOrder), log)
    ensures var store := StoreOf(su, before, singleOrder, batchOrder, log);
            && (store.Live? ==>
                  forall key :: key !in su.singleInput || key !in su.batchInput ==>
                    InOrder(su, before, store.results, key))
            && ((forall key :: !UsedBothWays(su, key)) ==> store.Live?)
  {
    var store, jobs := StoreOf(su, before, singleOrder, batchOrder, log), JobsOf(su, singleOrder, batchOrder);
    RunCrashesExactly(su, before, singleOrder, batchOrder, log);
    forall key, i: nat | Unfit(su, key, i) ensures UsedBothWays(su, key) {}
    hide JobsOf, StoreOf, FullLog, Handled;
    if store.Live? {
      forall key | key !in su.singleInput || key !in su.batchInput ensures InOrder(su, before, store.results, key) {
        if SingleOk(su, key) {
          EntryAfterSingle(su, before, singleOrder, batchOrder, log, key);
          UnmergedAlone(su, jobs, log, key, SingleAnswer(su, key).output);
        } else {
          EntryWithoutOne(su, before, singleOrder, batchOrder, log, key);
        }
      }
    }
  }

  lemma UnmergedAlone(su: Setup, jobs: seq<FanJob>, log: seq<Scheduler.Entry>, key: string, v: Value)
    requires forall i: nat :: Later(su, jobs, log, key, i) && Fits(v, i) ==> Holds(v, i, ItemAnswer(su, key, i).output)
    ensures Merged(su, jobs, log, key, v) == v
  {
    hide ItemAnswer, SingleFirst;
    assert forall i: nat :: ItemOk(su, key, i) && SingleFirst(jobs, log, key, i) ==> Later(su, jobs, log, key, i);
    if v.List? {
      assert Merged(su, jobs, log, key, v).items == v.items;
    }
  }

  /** The same in terms of the handlers alone: the answer of a key's handler for each of its inputs, in
      the order of the inputs and nil for those it fails on; or its answer for the single input, if it
      does not fail; and nothing new under any other key. */
  lemma HandlersAnswers(
    su: Setup, before: map<string, Value>, singleOrder: seq<string>, batchOrder: seq<string>, log: seq<Scheduler.Entry>,
    key: string)
    requires Orders(su, singleOrder, batchOrder) && FullLog(JobsOf(su, singleOrder, batchOrder), log)
    requires StoreOf(su, before, singleOrder, batchOrder, log).Live?
    requires key !in su.singleInput || key !in su.batchInput
    ensures var results := StoreOf(su, before, singleOrder, batchOrder, log).results;
            && (key in su.steps && key in su.batchInput ==>
                  key in results && Answered(su.steps[key], su.batchInput[key], results[key]))
            && (key in su.steps && key in su.singleInput && su.steps[key](su.singleInput[key]).err.None? ==>
                  key in results && results[key] == su.steps[key](su.singleInput[key]).output)
            && (key !in su.steps || (key !in su.batchInput && key !in su.singleInput)
                || (key in su.singleInput && su.steps[key](su.singleInput[key]).err.Some?) ==>
                  EntryOf(results, key) == EntryOf(before, key))
  {
    UnsharedInOrder(su, before, singleOrder, batchOrder, log);
    hide StoreOf, JobsOf, FullLog, SingleAnswer, ItemAnswer;
    assert InOrder(su, before, StoreOf(su, before, singleOrder, batchOrder, log).results, key);
  }

  /** A slice holds what a handler answers for each input, and nil where it fails. */
  ghost predicate Answered(handler: StepFn, inputs: seq<Value>, v: Value) {
    && v.List? && |v.items| == |inputs|
    && forall i :: 0 <= i < |inputs| ==>
         v.items[i] == if handler(inputs[i]).err.None? then handler(inputs[i]).output else Nil
  }

  /** The errors name each failing input's key with what its handler returned, and nothing else. */
  lemma ErrorsNameFailures(
    su: Setup, singleOrder: seq<string>, batchOrder: seq<string>, log: seq<Scheduler.Entry>, e: RunError)
    requires Orders(su, singleOrder, batchOrder) && FullLog(JobsOf(su, singleOrder, batchOrder), log)
    ensures e in ErrorsOf(JobsOf(su, singleOrder, batchOrder), log)
            <==> (exists key :: SingleFails(su, key, e)) || (exists key, i: nat :: ItemFails(su, key, i, e))
  {
    var jobs := JobsOf(su, singleOrder, batchOrder);
    JobsAre(su, singleOrder, batchOrder);
    ErrorsAre(jobs, log, e);
    hide JobsOf, ErrorsOf, SingleAnswer, ItemAnswer, Handled;
    if k :| 0 <= k < |log| && log[k].resp.err.Some? && e == StepFailed(jobs[log[k].job].key, log[k].resp.err.value) {
      var j := jobs[log[k].job];
      assert JobOk(su, j);
      if j.batchIndex == -1 {
        SingleSucceeds(su, jobs, log, k, j.key);
        assert SingleFails(su, j.key, e);
      } else {
        ItemSucceeds(su, jobs, log, k, j.key, j.batchIndex);
        assert ItemFails(su, j.key, j.batchIndex, e);
      }
    }
    if key :| SingleFails(su, key, e) {
      var k := SingleIsLogged(su, singleOrder, batchOrder, log, key);
      SingleSucceeds(su, jobs, log, k, key);
    }
    if key: string, i: nat :| ItemFails(su, key, i, e) {
      var k := ItemIsLogged(su, singleOrder, batchOrder, log, key, i);
      ItemSucceeds(su, jobs, log, k, key, i);
    }
  }

  ghost predicate SingleFails(su: Setup, key: string, e: RunError) {
    && key in su.steps && key in su.singleInput
    && var err := su.steps[key](su.singleInput[key]).err; err.Some? && e == StepFailed(key, err.value)
  }

  ghost predicate ItemFails(su: Setup, key: string, i: nat, e: RunError) {
    && key in su.steps && key in su.batchInput && i < |su.batchInput[key]|
    && var err := su.steps[key](su.batchInput[key][i]).err; err.Some? && e == StepFailed(key, err.value)
  }

  lemma {:induction false} ErrorsAre(jobs: seq<FanJob>, log: seq<Scheduler.Entry>, e: RunError)
    requires LogOver(jobs, log)
    ensures e in ErrorsOf(jobs, log)
            <==> exists k :: 0 <= k < |log| && log[k].resp.err.Some?
                             && e == StepFailed(jobs[log[k].job].key, log[k].resp.err.value)
  {
    if log != [] {
      var n := |log| - 1;
      ErrorsAre(jobs, log[..n], e);
      assert forall k :: 0 <= k < n ==> log[..n][k] == log[k];
    }
  }

  // ----------------------------------------------- keys with both kinds of input

  /** A succeeding item of a key that finishes after its single. */
  ghost predicate Later(su: Setup, jobs: seq<FanJob>, log: seq<Scheduler.Entry>, key: string, i: nat) {
    ItemOk(su, key, i) && SingleFirst(jobs, log, key, i)
  }

  predicate Holds(v: Value, i: nat, answer: Value) { Fits(v, i) && v.items[i] == answer }

  /** Which answers of a key are in the results. */
  ghost predicate SingleKept(su: Setup, results: map<string, Value>, key: string) {
    SingleOk(su, key) ==> EntryOf(results, key) == Some(SingleAnswer(su, key).output)
  }

  ghost predicate ItemKept(su: Setup, results: map<string, Value>, key: string, i: nat) {
    ItemOk(su, key, i) ==> key in results && Holds(results[key], i, ItemAnswer(su, key, i).output)
  }

  /** In a run that does not crash, which of two answers under one key survive depends on which was
      stored last: a single's, unless a different answer of a later item was written into it; an
      item's, unless a single that does not hold the same came after it. */
  lemma SharedKeyKeeps(
    su: Setup, before: map<string, Value>, singleOrder: seq<string>, batchOrder: seq<string>,
    log: seq<Scheduler.Entry>, key: string)
    requires Orders(su, singleOrder, batchOrder) && FullLog(JobsOf(su, singleOrder, batchOrder), log)
    requires StoreOf(su, before, singleOrder, batchOrder, log).Live? && SingleOk(su, key)
    ensures var results := StoreOf(su, before, singleOrder, batchOrder, log).results;
            var jobs, v := JobsOf(su, singleOrder, batchOrder), SingleAnswer(su, key).output;
            && (SingleKept(su, results, key) <==>
                  forall i: nat :: Later(su, jobs, log, key, i) ==> Holds(v, i, ItemAnswer(su, key, i).output))
            && (forall i: nat :: ItemOk(su, key, i) ==>
                  (ItemKept(su, results, key, i)
                   <==> SingleFirst(jobs, log, key, i) || Holds(v, i, ItemAnswer(su, key, i).output)))
  {
    var results := StoreOf(su, before, singleOrder, batchOrder, log).results;
    var jobs, v := JobsOf(su, singleOrder, batchOrder), SingleAnswer(su, key).output;
    RunCrashesExactly(su, before, singleOrder, batchOrder, log);
    EntryAfterSingle(su, before, singleOrder, batchOrder, log, key);
    hide JobsOf, StoreOf, FullLog, ItemAnswer, SingleAnswer, SingleFirst;
    assert forall i: nat :: Later(su, jobs, log, key, i) ==> !Unfit(su, key, i);
    if forall i: nat :: Later(su, jobs, log, key, i) ==> Holds(v, i, ItemAnswer(su, key, i).output) {
      UnmergedAlone(su, jobs, log, key, v);
    }
  }

  /** A single and an item of one key that both succeed with answers that no value can hold. */
  ghost predicate Collide(su: Setup, key: string, i: nat) {
    SingleOk(su, key) && ItemOk(su, key, i) && !Holds(SingleAnswer(su, key).output, i, ItemAnswer(su, key, i).output)
  }

  ghost predicate AllKept(su: Setup, results: map<string, Value>) {
    && (forall key :: SingleKept(su, results, key))
    && (forall key, i: nat :: ItemKept(su, results, key, i))
  }

  /** Every run keeps every answer exactly when no two collide; otherwise each run crashes or loses
      one of them. */
  lemma AllKeptExactly(
    su: Setup, before: map<string, Value>, singleOrder: seq<string>, batchOrder: seq<string>, log: seq<Scheduler.Entry>)
    requires Orders(su, singleOrder, batchOrder) && FullLog(JobsOf(su, singleOrder, batchOrder), log)
    ensures var store := StoreOf(su, before, singleOrder, batchOrder, log);
            store.Live? && AllKept(su, store.results) <==> forall key, i: nat :: !Collide(su, key, i)
  {
    var store := StoreOf(su, before, singleOrder, batchOrder, log);
    RunCrashesExactly(su, before, singleOrder, batchOrder, log);
    hide StoreOf, FullLog, JobsOf, SingleAnswer, ItemAnswer, SingleFirst;
    if forall key, i: nat :: !Collide(su, key, i) {
      forall key, i: nat | Unfit(su, key, i) ensures Collide(su, key, i) {}
      assert store.Live?;
      forall key, i: nat ensures SingleKept(su, store.results, key) && ItemKept(su, store.results, key, i) {
        KeptUnlessCollide(su, before, singleOrder, batchOrder, log, key);
      }
      forall key ensures SingleKept(su, store.results, key) {
        assert ItemKept(su, store.results, key, 0);
      }
    } else {
      var key, i: nat :| Collide(su, key, i);
      if store.Live? && SingleKept(su, store.results, key) {
        assert !ItemKept(su, store.results, key, i);
      }
    }
  }

  lemma KeptUnlessCollide(
    su: Setup, before: map<string, Value>, singleOrder: seq<string>, batchOrder: seq<string>,
    log: seq<Scheduler.Entry>, key: string)
    requires Orders(su, singleOrder, batchOrder) && FullLog(JobsOf(su, singleOrder, batchOrder), log)
    requires StoreOf(su, before, singleOrder, batchOrder, log).Live? && forall i: nat :: !Collide(su, key, i)
    ensures var results := StoreOf(su, before, singleOrder, batchOrder, log).results;
            SingleKept(su, results, key) && forall i: nat :: ItemKept(su, results, key, i)
  {
    hide StoreOf, FullLog, JobsOf, SingleAnswer, ItemAnswer, SingleFirst;
    if SingleOk(su, key) {
      SharedKeyKeeps(su, before, singleOrder, batchOrder, log, key);
      assert forall i: nat :: ItemOk(su, key, i) ==> !Collide(su, key, i);
    } else {
      EntryWithoutOne(su, before, singleOrder, batchOrder, log, key);
    }
  }

  /** With one worker singles finish first, so a run crashes exactly when some single and some item of
      one key succeed and the single's answer has no slot for the item. */
  lemma OneWorkerCrashes(
    su: Setup, before: map<string, Value>, singleOrder: seq<string>, batchOrder: seq<string>,
    actions: seq<Scheduler.Action>)
    requires Orders(su, singleOrder, batchOrder) && CompleteRun(su, singleOrder, batchOrder, 1, actions)
    ensures var log := LogOf(su, singleOrder, batchOrder, 1, actions);
            && FullLog(JobsOf(su, singleOrder, batchOrder), log)
            && (StoreOf(su, before, singleOrder, batchOrder, log).Crashed? <==> exists key, i: nat :: Unfit(su, key, i))
  {
    var jobs, log := JobsOf(su, singleOrder, batchOrder), LogOf(su, singleOrder, batchOrder, 1, actions);
    CompleteIsFull(su, singleOrder, batchOrder, 1, actions);
    var c := Scheduler.Config(|jobs|, 1, false);
    assert log == Scheduler.After(c, Scheduler.Init(c), actions).log;
    Sequential.OneWorkerInOrder(c, actions);
    InJobOrderCrashes(su, before, singleOrder, batchOrder, log);
  }

  lemma InJobOrderCrashes(
    su: Setup, before: map<string, Value>, singleOrder: seq<string>, batchOrder: seq<string>, log: seq<Scheduler.Entry>)
    requires Orders(su, singleOrder, batchOrder) && FullLog(JobsOf(su, singleOrder, batchOrder), log)
    requires forall k :: 0 <= k < |log| ==> log[k].job == k
    ensures StoreOf(su, before, singleOrder, batchOrder, log).Crashed? <==> exists key, i: nat :: Unfit(su, key, i)
  {
    var jobs := JobsOf(su, singleOrder, batchOrder);
    RunCrashesExactly(su, before, singleOrder, batchOrder, log);
    JobsAre(su, singleOrder, batchOrder);
    hide StoreOf, JobsOf, Handled, Apart, JobOk;
    forall key, i: nat | Unfit(su, key, i) ensures SingleFirst(jobs, log, key, i) {
      var p := SingleIsLogged(su, singleOrder, batchOrder, log, key);
      var k := ItemIsLogged(su, singleOrder, batchOrder, log, key, i);
      assert IsAt(jobs, log, p, key, -1) && IsAt(jobs, log, k, key, i);
    }
  }

  ghost predicate CrashingRun(
    su: Setup, before: map<string, Value>, singleOrder: seq<string>, batchOrder: seq<string>, workers: nat,
    actions: seq<Scheduler.Action>)
    requires Orders(su, singleOrder, batchOrder)
  {
    && CompleteRun(su, singleOrder, batchOrder, workers, actions)
    && var log := LogOf(su, singleOrder, batchOrder, workers, actions);
       LogOver(JobsOf(su, singleOrder, batchOrder), log)
       && StoreOf(su, before, singleOrder, batchOrder, log).Crashed?
  }

  /** With any number of workers some execution crashes exactly then. */
  lemma SomeRunCrashes(
    su: Setup, before: map<string, Value>, singleOrder: seq<string>, batchOrder: seq<string>, workers: nat)
    requires Orders(su, singleOrder, batchOrder) && workers >= 1
    ensures (exists actions :: CrashingRun(su, before, singleOrder, batchOrder, workers, actions))
            <==> exists key, i: nat :: Unfit(su, key, i)
  {
    var jobs := JobsOf(su, singleOrder, batchOrder);
    forall actions | CrashingRun(su, before, singleOrder, batchOrder, workers, actions)
      ensures exists key, i: nat :: Unfit(su, key, i)
    {
      CompleteIsFull(su, singleOrder, batchOrder, workers, actions);
      RunCrashesExactly(su, before, singleOrder, batchOrder, LogOf(su, singleOrder, batchOrder, workers, actions));
    }
    if exists key, i: nat :: Unfit(su, key, i) {
      var actions := Sequential.InOrderExecution(Scheduler.Config(|jobs|, workers, false), Answers(jobs));
      CompleteIsFull(su, singleOrder, batchOrder, workers, actions);
      InJobOrderCrashes(su, before, singleOrder, batchOrder, LogOf(su, singleOrder, batchOrder, workers, actions));
      assert CrashingRun(su, before, singleOrder, batchOrder, workers, actions);
    }
  }

  ghost function SetupOf(o: Orchestrator): Setup
    reads o
  {
    Setup(o.steps, o.singleInput, o.batchInput)
  }

  /** Run on the object, when its workers finish as in an execution that the scheduler allows. */
  method RunScheduled(
    o: Orchestrator, singleOrder: seq<string>, batchOrder: seq<string>, workers: nat,
    ghost actions: seq<Scheduler.Action>, log: seq<Scheduler.Entry>, late: bool)
    returns (crashed: bool, err: Option<RunError>)
    requires Orders(SetupOf(o), singleOrder, batchOrder) && workers >= 1
    requires CompleteRun(SetupOf(o), singleOrder, batchOrder, workers, actions)
    requires log == LogOf(SetupOf(o), singleOrder, batchOrder, workers, actions)
    modifies o
    ensures SetupOf(o) == old(SetupOf(o))
    ensures var jobs := JobsOf(SetupOf(o), singleOrder, batchOrder);
            && (crashed <==> Clashes(SetupOf(o), jobs, log))
            && (!crashed ==>
                  && (forall key ::
                        EntryOf(o.results, key) == FinalEntry(SetupOf(o), old(o.results), jobs, log, key))
                  && |o.errors| == |old(o.errors)| + |FailingJobs(jobs)| + (if late then 1 else 0)
                  && err == if o.errors == [] then None else Some(o.errors[0]))
  {
    hide SingleJobs, BatchJobs, Allocated, StoredAll, ErrorsOf, CompleteRun, LogOf, FinalEntry, Clashes, Handled;
    hide FailingJobs, FullLog;
    ghost var su := SetupOf(o);
    OrderedFanOut(su, o.results, singleOrder, batchOrder, workers, actions);
    FullIsOver(JobsOf(su, singleOrder, batchOrder), log);
    crashed, err := o.Run(singleOrder, batchOrder, log, late);
    assert SetupOf(o) == su;
  }

  lemma FullIsOver(jobs: seq<FanJob>, log: seq<Scheduler.Entry>)
    requires FullLog(jobs, log)
    ensures LogOver(jobs, log)
  {}
}
