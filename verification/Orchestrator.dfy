/** The ordered fan-out of v2/goroutinew/orchestrator.go.  Its dispatch loop and workers are those
    of the Scheduler without block-error; a worker's "record" step stores one result or one error.
    A List is Go's []any here; slices of other types are atoms. */
module Orchestrator {
  import opened Text
  import opened Responses
  import opened Jobs
  import Scheduler

  /** batchIndex is -1 for a single execution. */
  datatype FanJob = FanJob(key: string, batchIndex: int, input: Value, handler: StepFn)

  datatype RunError = StepFailed(key: string, cause: Error) | DeadlineExceeded

  // ------------------------------------------------------------------ queueing

  ghost function SingleJobs(order: seq<string>, input: map<string, Value>, steps: map<string, StepFn>): seq<FanJob>
    requires forall k :: k in order ==> k in input
  {
    if order == [] then []
    else
      var k := order[|order| - 1];
      SingleJobs(order[..|order| - 1], input, steps)
      + (if k in steps then [FanJob(k, -1, input[k], steps[k])] else [])
  }

  ghost function ItemJobs(key: string, inputs: seq<Value>, handler: StepFn, n: nat): (jobs: seq<FanJob>)
    requires n <= |inputs|
    ensures |jobs| == n && forall i :: 0 <= i < n ==> jobs[i] == FanJob(key, i, inputs[i], handler)
  {
    if n == 0 then [] else ItemJobs(key, inputs, handler, n - 1) + [FanJob(key, n - 1, inputs[n - 1], handler)]
  }

  ghost function BatchJobs(order: seq<string>, inputs: map<string, seq<Value>>, steps: map<string, StepFn>): seq<FanJob>
    requires forall k :: k in order ==> k in inputs
  {
    if order == [] then []
    else
      var k := order[|order| - 1];
      BatchJobs(order[..|order| - 1], inputs, steps)
      + (if k in steps then ItemJobs(k, inputs[k], steps[k], |inputs[k]|) else [])
  }

  /** The slices stored before any job runs: one empty slot for each input. */
  ghost function Allocated(
    results: map<string, Value>, order: seq<string>, inputs: map<string, seq<Value>>, steps: map<string, StepFn>)
    : map<string, Value>
    requires forall k :: k in order ==> k in inputs
  {
    if order == [] then results
    else
      var k := order[|order| - 1];
      var before := Allocated(results, order[..|order| - 1], inputs, steps);
      if k in steps then before[k := List(seq(|inputs[k]|, _ => Nil))] else before
  }

  // ----------------------------------------------------------------- finishing

  /** What is stored, or that a worker has panicked: nothing recovers, so the process is gone. */
  datatype Store = Live(results: map<string, Value>) | Crashed

  /** A value that is a slice with that index: what a batch worker needs to find under its key. */
  predicate Fits(v: Value, i: int) { v.List? && 0 <= i < |v.items| }

  function Stored(results: map<string, Value>, j: FanJob, resp: Response): Store {
    if resp.err.Some? then Live(results)
    else if j.batchIndex == -1 then Live(results[j.key := resp.output])
    else if j.key !in results then Live(results)
    else if Fits(results[j.key], j.batchIndex) then
      Live(results[j.key := List(results[j.key].items[j.batchIndex := resp.output])])
    else Crashed
  }

  ghost function StoredAll(results: map<string, Value>, jobs: seq<FanJob>, log: seq<Scheduler.Entry>): Store
    requires LogOver(jobs, log)
  {
    if log == [] then Live(results)
    else
      var last := log[|log| - 1];
      match StoredAll(results, jobs, log[..|log| - 1])
      case Crashed => Crashed
      case Live(r) => Stored(r, jobs[last.job], last.resp)
  }

  ghost predicate LogOver(jobs: seq<FanJob>, log: seq<Scheduler.Entry>) {
    forall k :: 0 <= k < |log| ==> log[k].job < |jobs|
  }

  ghost function ErrorsOf(jobs: seq<FanJob>, log: seq<Scheduler.Entry>): seq<RunError>
    requires LogOver(jobs, log)
  {
    if log == [] then []
    else
      var last := log[|log| - 1];
      ErrorsOf(jobs, log[..|log| - 1])
      + (if last.resp.err.Some? then [StepFailed(jobs[last.job].key, last.resp.err.value)] else [])
  }

  class Orchestrator {
    var steps: map<string, StepFn>
    var singleInput: map<string, Value>
    var batchInput: map<string, seq<Value>>
    var results: map<string, Value>
    var errors: seq<RunError>

    constructor ()
      ensures steps == map[] && singleInput == map[] && batchInput == map[] && results == map[] && errors == []
    {
      steps, singleInput, batchInput, results, errors := map[], map[], map[], map[], [];
    }

    method AddStep(key: string, handler: StepFn)
      modifies this`steps
      ensures steps == old(steps)[key := handler]
    {
      steps := steps[key := handler];
    }

    method AddInput(key: string, input: Value)
      modifies this`singleInput
      ensures singleInput == old(singleInput)[key := input]
    {
      singleInput := singleInput[key := input];
    }

    method AddBatchInput(key: string, inputs: seq<Value>)
      modifies this`batchInput
      ensures batchInput == old(batchInput)[key := inputs]
    {
      batchInput := batchInput[key := inputs];
    }

    method AddError(err: RunError)
      modifies this`errors
      ensures errors == old(errors) + [err]
    {
      errors := errors + [err];
    }

    method GetError() returns (r: Option<RunError>)
      ensures r == if errors == [] then None else Some(errors[0])
    {
      r := if |errors| > 0 then Some(errors[0]) else None;
    }

    method GetResp(key: string) returns (r: Option<Value>)
      ensures r == if key in results then Some(results[key]) else None
    {
      r := if key in results then Some(results[key]) else None;
    }

    method QueueSingles(order: seq<string>) returns (jobs: seq<FanJob>)
      requires IsOrder(order, singleInput.Keys)
      ensures jobs == SingleJobs(order, singleInput, steps)
    {
      jobs := [];
      for n := 0 to |order|
        invariant jobs == SingleJobs(order[..n], singleInput, steps)
      {
        var key := order[n];
        assert order[..n + 1][..n] == order[..n];
        if key in steps {
          jobs := jobs + [FanJob(key, -1, singleInput[key], steps[key])];
        }
      }
      assert order[..|order|] == order;
    }

    /** Allocates the slices and queues one job for each input. */
    method QueueBatches(order: seq<string>) returns (jobs: seq<FanJob>)
      requires IsOrder(order, batchInput.Keys)
      modifies this`results
      ensures jobs == BatchJobs(order, batchInput, steps)
      ensures results == Allocated(old(results), order, batchInput, steps)
    {
      jobs := [];
      for n := 0 to |order|
        invariant jobs == BatchJobs(order[..n], batchInput, steps)
        invariant results == Allocated(old(results), order[..n], batchInput, steps)
      {
        var key := order[n];
        assert order[..n + 1][..n] == order[..n];
        if key in steps {
          var inputs, handler := batchInput[key], steps[key];
          results := results[key := List(seq(|inputs|, _ => Nil))];
          var more := QueueItems(key, inputs, handler);
          jobs := jobs + more;
        }
      }
      assert order[..|order|] == order;
    }

    static method QueueItems(key: string, inputs: seq<Value>, handler: StepFn) returns (jobs: seq<FanJob>)
      ensures jobs == ItemJobs(key, inputs, handler, |inputs|)
    {
      jobs := [];
      for i := 0 to |inputs|
        invariant jobs == ItemJobs(key, inputs, handler, i)
      {
        jobs := jobs + [FanJob(key, i, inputs[i], handler)];
      }
    }

    /** What a worker does once its handler has returned.  The look-up and the write of a batch
        worker are one step: a single answer stored between them would be stored after them. */
    method FinishJob(j: FanJob, resp: Response) returns (crashed: bool)
      modifies this`results, this`errors
      ensures Stored(old(results), j, resp) == if crashed then Crashed else Live(results)
      ensures errors == old(errors) + (if resp.err.Some? then [StepFailed(j.key, resp.err.value)] else [])
    {
      if resp.err.Some? {
        AddError(StepFailed(j.key, resp.err.value));
        return false;
      }
      if j.batchIndex == -1 {
        results := results[j.key := resp.output];
      } else if j.key in results {
        var slice := results[j.key];
        if !Fits(slice, j.batchIndex) {
          return true;
        }
        results := results[j.key := List(slice.items[j.batchIndex := resp.output])];
      }
      return false;
    }

    /** Run, given the map orders, the order in which workers finish, and whether the deadline
        passed.  If a worker panics, Run does not return. */
    method Run(singleOrder: seq<string>, batchOrder: seq<string>, log: seq<Scheduler.Entry>, late: bool)
      returns (crashed: bool, err: Option<RunError>)
      requires IsOrder(singleOrder, singleInput.Keys) && IsOrder(batchOrder, batchInput.Keys)
      requires LogOver(SingleJobs(singleOrder, singleInput, steps) + BatchJobs(batchOrder, batchInput, steps), log)
      modifies this`results, this`errors
      ensures var jobs := SingleJobs(singleOrder, singleInput, steps) + BatchJobs(batchOrder, batchInput, steps);
              var store := StoredAll(Allocated(old(results), batchOrder, batchInput, steps), jobs, log);
              && (crashed <==> store.Crashed?)
              && (!crashed ==>
                    && results == store.results
                    && errors == old(errors) + ErrorsOf(jobs, log) + (if late then [DeadlineExceeded] else [])
                    && err == if errors == [] then None else Some(errors[0]))
    {
      hide SingleJobs, BatchJobs, Allocated, Stored;
      var singles := QueueSingles(singleOrder);
      var batches := QueueBatches(batchOrder);
      var jobs := singles + batches;
      ghost var start := results;
      crashed, err := false, None;
      for n := 0 to |log|
        invariant StoredAll(start, jobs, log[..n]) == Live(results)
        invariant errors == old(errors) + ErrorsOf(jobs, log[..n])
      {
        assert log[..n + 1][..n] == log[..n];
        crashed := FinishJob(jobs[log[n].job], log[n].resp);
        if crashed {
          CrashIsFinal(start, jobs, log, n + 1);
          return;
        }
      }
      assert log[..|log|] == log;
      if late {
        AddError(DeadlineExceeded);
      }
      err := GetError();
    }
  }

  lemma {:induction false} CrashIsFinal(
    results: map<string, Value>, jobs: seq<FanJob>, log: seq<Scheduler.Entry>, n: nat)
    requires LogOver(jobs, log) && n <= |log| && StoredAll(results, jobs, log[..n]).Crashed?
    ensures StoredAll(results, jobs, log).Crashed?
  {
    if n < |log| {
      var m := |log| - 1;
      assert log[..m][..n] == log[..n];
      CrashIsFinal(results, jobs, log[..m], n);
    } else {
      assert log[..n] == log;
    }
  }

  // ------------------------------------------------------------ ordered results

  /** Every job has its own place: its own slot, or a key that no other job stores under. */
  ghost predicate OwnPlaces(jobs: seq<FanJob>) {
    forall a, b :: 0 <= a < |jobs| && 0 <= b < |jobs| && a != b && jobs[a].key == jobs[b].key ==>
      jobs[a].batchIndex != -1 && jobs[b].batchIndex != -1 && jobs[a].batchIndex != jobs[b].batchIndex
  }

  ghost predicate OnceEach(log: seq<Scheduler.Entry>) {
    forall k, l :: 0 <= k < l < |log| ==> log[k].job != log[l].job
  }

  /** No two jobs are the same item of one key, or both its single. */
  ghost predicate Apart(jobs: seq<FanJob>) {
    forall a, b :: 0 <= a < b < |jobs| && jobs[a].key == jobs[b].key ==> jobs[a].batchIndex != jobs[b].batchIndex
  }

  /** Entry k of the log is that of the item with this index, or of the single (-1). */
  predicate IsAt(jobs: seq<FanJob>, log: seq<Scheduler.Entry>, k: int, key: string, index: int) {
    && 0 <= k < |log| && log[k].job < |jobs|
    && jobs[log[k].job].key == key && jobs[log[k].job].batchIndex == index
  }

  predicate SucceedsAt(jobs: seq<FanJob>, log: seq<Scheduler.Entry>, k: int, key: string, index: int) {
    IsAt(jobs, log, k, key, index) && log[k].resp.err.None?
  }

  lemma AtMostOnce(jobs: seq<FanJob>, log: seq<Scheduler.Entry>, k: nat, l: nat, key: string, index: int)
    requires Apart(jobs) && OnceEach(log) && IsAt(jobs, log, k, key, index) && IsAt(jobs, log, l, key, index)
    ensures k == l
  {}

  /** What the workers of a log leave in a slot that held old. */
  ghost function Written(jobs: seq<FanJob>, log: seq<Scheduler.Entry>, key: string, i: nat, old_: Value): Value {
    if log == [] then old_
    else if SucceedsAt(jobs, log, |log| - 1, key, i) then log[|log| - 1].resp.output
    else Written(jobs, log[..|log| - 1], key, i, old_)
  }

  /** What they leave of a value, if none of them is the single of its key. */
  ghost function Overlaid(jobs: seq<FanJob>, log: seq<Scheduler.Entry>, key: string, v: Value): Value {
    if v.List?
    then List(seq(|v.items|, i requires 0 <= i < |v.items| => Written(jobs, log, key, i, v.items[i])))
    else v
  }

  ghost predicate NoSingle(jobs: seq<FanJob>, log: seq<Scheduler.Entry>, key: string) {
    forall k :: 0 <= k < |log| ==> !SucceedsAt(jobs, log, k, key, -1)
  }

  lemma {:induction false} SlotHoldsAnswer(
    jobs: seq<FanJob>, log: seq<Scheduler.Entry>, key: string, i: nat, old_: Value)
    requires Apart(jobs) && OnceEach(log)
    ensures forall k :: SucceedsAt(jobs, log, k, key, i) ==> Written(jobs, log, key, i, old_) == log[k].resp.output
    ensures (forall k :: !SucceedsAt(jobs, log, k, key, i)) ==> Written(jobs, log, key, i, old_) == old_
  {
    if log != [] {
      var n := |log| - 1;
      var front := log[..n];
      SlotHoldsAnswer(jobs, front, key, i, old_);
      assert forall k :: SucceedsAt(jobs, front, k, key, i) ==> SucceedsAt(jobs, log, k, key, i);
      forall k | SucceedsAt(jobs, log, k, key, i)
        ensures Written(jobs, log, key, i, old_) == log[k].resp.output
      {
        if SucceedsAt(jobs, log, n, key, i) {
          AtMostOnce(jobs, log, k, n, key, i);
        } else {
          assert SucceedsAt(jobs, front, k, key, i);
        }
      }
    }
  }

  lemma {:induction false} EntryWithoutSingle(
    results: map<string, Value>, jobs: seq<FanJob>, log: seq<Scheduler.Entry>, key: string)
    requires LogOver(jobs, log) && NoSingle(jobs, log, key)
    ensures match StoredAll(results, jobs, log)
            case Crashed => true
            case Live(after) =>
              if key in results then key in after && after[key] == Overlaid(jobs, log, key, results[key])
              else key !in after
  {
    if log != [] {
      var n := |log| - 1;
      var front := log[..n];
      assert forall k :: SucceedsAt(jobs, front, k, key, -1) ==> SucceedsAt(jobs, log, k, key, -1);
      EntryWithoutSingle(results, jobs, front, key);
      assert !SucceedsAt(jobs, log, n, key, -1);
    }
  }
  lemma {:induction false} StoredInTwo(
    results: map<string, Value>, jobs: seq<FanJob>, log: seq<Scheduler.Entry>, n: nat)
    requires LogOver(jobs, log) && n <= |log|
    ensures StoredAll(results, jobs, log)
            == match StoredAll(results, jobs, log[..n])
               case Crashed => Crashed
               case Live(r) => StoredAll(r, jobs, log[n..])
  {
    hide Stored;
    if n < |log| {
      var m := |log| - 1;
      StoredInTwo(results, jobs, log[..m], n);
      assert log[..m][..n] == log[..n] && log[..m][n..] == log[n..][..m - n];
    } else {
      assert log[..n] == log && log[n..] == [];
    }
  }

  /** Once a single has finished without error, its key holds its answer, with the answers of the
      items of that key that finished after it written in where they fit. */
  lemma SingleHoldsAnswer(
    results: map<string, Value>, jobs: seq<FanJob>, log: seq<Scheduler.Entry>, key: string, p: nat)
    requires LogOver(jobs, log) && Apart(jobs) && OnceEach(log) && SucceedsAt(jobs, log, p, key, -1)
    ensures match StoredAll(results, jobs, log)
            case Crashed => true
            case Live(after) => key in after && after[key] == Overlaid(jobs, log[p + 1..], key, log[p].resp.output)
  {
    StoredInTwo(results, jobs, log, p + 1);
    assert log[..p + 1][..p] == log[..p];
    var rest := log[p + 1..];
    forall k | 0 <= k < |rest| ensures !SucceedsAt(jobs, rest, k, key, -1) {
      if SucceedsAt(jobs, rest, k, key, -1) {
        AtMostOnce(jobs, log, p, p + 1 + k, key, -1);
      }
    }
    hide Overlaid;
    var before := StoredAll(results, jobs, log[..p + 1]);
    if before.Live? {
      EntryWithoutSingle(before.results, jobs, rest, key);
    }
  }

  /** Slot for every batch job. */
  ghost predicate HasSlots(results: map<string, Value>, jobs: seq<FanJob>) {
    forall a :: 0 <= a < |jobs| && jobs[a].batchIndex != -1 ==>
      jobs[a].key in results && Fits(results[jobs[a].key], jobs[a].batchIndex)
  }

  /** A worker finds under its key a single answer that has no such slot. */
  ghost predicate FindsNoSlot(jobs: seq<FanJob>, log: seq<Scheduler.Entry>, p: int, k: int) {
    && 0 <= p < k < |log| && log[k].job < |jobs|
    && var j := jobs[log[k].job];
       && j.batchIndex != -1 && log[k].resp.err.None?
       && SucceedsAt(jobs, log, p, j.key, -1) && !Fits(log[p].resp.output, j.batchIndex)
  }

  /** A run crashes if and only if some batch worker finishes after a single of its key whose answer
      has no slot for it. */
  lemma {:induction false} CrashesExactly(results: map<string, Value>, jobs: seq<FanJob>, log: seq<Scheduler.Entry>)
    requires LogOver(jobs, log) && Apart(jobs) && OnceEach(log) && HasSlots(results, jobs)
    ensures StoredAll(results, jobs, log).Crashed? <==> exists p, k :: FindsNoSlot(jobs, log, p, k)
  {
    if log != [] {
      var n := |log| - 1;
      var front := log[..n];
      CrashesExactly(results, jobs, front);
      LastCrashes(results, jobs, log, n);
      hide StoredAll, HasSlots, Apart, OnceEach;
      forall p, k | FindsNoSlot(jobs, front, p, k) ensures FindsNoSlot(jobs, log, p, k) {}
      forall p, k | FindsNoSlot(jobs, log, p, k) && k < n ensures FindsNoSlot(jobs, front, p, k) {}
    }
  }

  lemma LastCrashes(results: map<string, Value>, jobs: seq<FanJob>, log: seq<Scheduler.Entry>, n: nat)
    requires |log| == n + 1 && LogOver(jobs, log) && Apart(jobs) && OnceEach(log) && HasSlots(results, jobs)
    ensures StoredAll(results, jobs, log).Crashed?
            <==> StoredAll(results, jobs, log[..n]).Crashed? || exists p :: FindsNoSlot(jobs, log, p, n)
  {
    var front := log[..n];
    var j := jobs[log[n].job];
    if j.batchIndex != -1 && StoredAll(results, jobs, front).Live? {
      if NoSingle(jobs, front, j.key) {
        EntryWithoutSingle(results, jobs, front, j.key);
        assert forall p :: SucceedsAt(jobs, log, p, j.key, -1) && p < n ==> SucceedsAt(jobs, front, p, j.key, -1);
      } else {
        var p: nat :| p < n && SucceedsAt(jobs, front, p, j.key, -1);
        SingleHoldsAnswer(results, jobs, front, j.key, p);
        forall q | FindsNoSlot(jobs, log, q, n) ensures q == p {
          AtMostOnce(jobs, log, p, q, j.key, -1);
        }
        assert FindsNoSlot(jobs, log, p, n) <==> log[n].resp.err.None? && !Fits(log[p].resp.output, j.batchIndex);
      }
    }
  }

  ghost function FailedJobs(log: seq<Scheduler.Entry>): set<nat> {
    set k | 0 <= k < |log| && log[k].resp.err.Some? :: log[k].job
  }

  /** One error for each failed job. */
  lemma {:induction false} OneErrorPerFailure(jobs: seq<FanJob>, log: seq<Scheduler.Entry>)
    requires OnceEach(log) && forall k :: 0 <= k < |log| ==> log[k].job < |jobs|
    ensures |ErrorsOf(jobs, log)| == |FailedJobs(log)|
  {
    if log != [] {
      var n := |log| - 1;
      OneErrorPerFailure(jobs, log[..n]);
      FailedJobsNext(log);
    }
  }

  lemma FailedJobsNext(log: seq<Scheduler.Entry>)
    requires log != [] && OnceEach(log)
    ensures var n := |log| - 1;
            FailedJobs(log) == FailedJobs(log[..n]) + (if log[n].resp.err.Some? then {log[n].job} else {})
            && log[n].job !in FailedJobs(log[..n])
  {
    var n := |log| - 1;
    assert forall k :: 0 <= k < n ==> log[..n][k] == log[k];
  }

}
