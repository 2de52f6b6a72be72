/** What Run returns, in terms of what the caller registered and nothing else: each step function
    applied to its own input. */
module RunResult {
  import opened Text
  import opened BatchKeys
  import opened Chunks
  import opened Responses
  import opened Jobs
  import opened RunMeaning
  import Scheduler

  /** A run to the end that nothing stops early, in which every step function answers. */
  ghost predicate GoodRun(
    su: Setup, order: seq<string>, workers: nat, actions: seq<Scheduler.Action>, collectorOrder: seq<string>)
  {
    && WellKeyed(su) && workers >= 1
    && IsOrder(order, su.steps.Keys) && IsOrder(collectorOrder, su.collectors.Keys)
    && CompleteRun(su, order, workers, actions) && Undisturbed(su, order, actions)
    && Scheduler.Answers(actions, ExecutedAll(JobsOf(su, order)))
  }

  /** The map that Run returns. */
  ghost function Returned(
    su: Setup, order: seq<string>, workers: nat, actions: seq<Scheduler.Action>, collectorOrder: seq<string>)
    : map<string, Response>
    requires GoodRun(su, order, workers, actions, collectorOrder)
  {
    RunMeansSequential(su, order, workers, actions, collectorOrder, "");
    Output(su, order, LogOf(su, order, workers, actions), collectorOrder)
  }

  /** An entry holds what a function answered, with its error, as executed. */
  ghost predicate Holds(out: map<string, Response>, key: string, r: Result) {
    key in out && out[key] == Response(r.output, r.err, true)
  }

  /** The items of chunk i, counted from zero. */
  function Piece(items: seq<Value>, size: nat, i: nat): seq<Value>
    requires i * size <= |items|
  {
    items[i * size..Min(i * size + size, |items|)]
  }

  lemma {:induction false} ChunkIsPiece(items: seq<Value>, size: nat, i: nat)
    requires size > 0 && i < |Chunked(items, size)|
    ensures i * size < |items| && Chunked(items, size)[i] == Piece(items, size, i)
    decreases i
  {
    if |items| > size && i > 0 {
      var rest := items[size..];
      ChunkIsPiece(rest, size, i - 1);
      assert i * size == (i - 1) * size + size;
    }
  }

  lemma {:induction false} PieceIsChunk(items: seq<Value>, size: nat, i: nat)
    requires size > 0 && i * size < |items|
    ensures i < |Chunked(items, size)|
    decreases i
  {
    if i > 0 {
      assert i * size == (i - 1) * size + size;
      assert (i - 1) * size >= 0;
      PieceIsChunk(items[size..], size, i - 1);
    }
  }

  lemma EntryOfJob(
    su: Setup, order: seq<string>, workers: nat, actions: seq<Scheduler.Action>, collectorOrder: seq<string>,
    step: string, i: nat)
    requires GoodRun(su, order, workers, actions, collectorOrder)
    requires step in su.steps && i < |JobsOfStep(su, step)|
    ensures var j, out := JobsOfStep(su, step)[i], Returned(su, order, workers, actions, collectorOrder);
            j.processKey !in su.collectors ==>
              if IsChunked(su, step) && step in su.collectors then j.processKey !in out
              else Holds(out, j.processKey, j.fn(j.input))
  {
    var j := JobsOfStep(su, step)[i];
    KeyNamesJob(su, step, i);
    RunMeansSequential(su, order, workers, actions, collectorOrder, j.processKey);
    hide JobFor, JobsOfStep, Output, LogOf;
  }

  lemma NotClean(step: string, tail: string)
    ensures !Clean(step + SEP + tail)
  {
    var key := step + SEP + tail;
    assert key[|step|..|step| + |SEP|] == SEP;
    assert OccursAt(key, SEP, |step|);
  }

  /** A step without batch items is called once, on its input, or on nil where it has none. */
  lemma PlainStepReturns(
    su: Setup, order: seq<string>, workers: nat, actions: seq<Scheduler.Action>, collectorOrder: seq<string>,
    step: string)
    requires GoodRun(su, order, workers, actions, collectorOrder)
    requires step in su.steps && step !in su.collectors && (step in su.batchInput ==> su.batchInput[step] == [])
    ensures var out := Returned(su, order, workers, actions, collectorOrder);
            && (step in su.input ==> Holds(out, step, su.steps[step](su.input[step])))
            && (step !in su.input ==> Holds(out, step, su.steps[step](Nil)))
  {
    EntryOfJob(su, order, workers, actions, collectorOrder, step, 0);
    hide GoodRun, Returned;
  }

  /** Without a batch size a step with batch items is called once, on all of them. */
  lemma WholeBatchReturns(
    su: Setup, order: seq<string>, workers: nat, actions: seq<Scheduler.Action>, collectorOrder: seq<string>,
    step: string)
    requires GoodRun(su, order, workers, actions, collectorOrder)
    requires step in su.steps && step in su.batchInput && su.batchInput[step] != []
    requires !su.opt.isBatch || su.opt.batchSize <= 0
    ensures var out := Returned(su, order, workers, actions, collectorOrder);
            Holds(out, step + "#batch_all", su.steps[step](List(su.batchInput[step])))
  {
    EntryOfJob(su, order, workers, actions, collectorOrder, step, 0);
    hide GoodRun, Returned;
    AllKeyIs(step);
    NotClean(step, "all");
    assert AllKey(step) !in su.collectors by {
      KeysAreClean(su, order, workers, actions, collectorOrder);
    }
  }

  lemma AllKeyIs(step: string)
    ensures AllKey(step) == step + SEP + "all" == step + "#batch_all"
  {
    Assoc3(step, "#batch_", "all");
    assert "#batch_" + "all" == "#batch_all";
  }

  lemma Assoc3(a: string, b: string, c: string)
    ensures a + b + c == a + (b + c)
  {}

  lemma KeysAreClean(
    su: Setup, order: seq<string>, workers: nat, actions: seq<Scheduler.Action>, collectorOrder: seq<string>)
    requires GoodRun(su, order, workers, actions, collectorOrder)
    ensures WellKeyed(su) && forall k :: k in su.collectors ==> Clean(k)
  {}

  /** With a batch size n a step is called once for each n items in a row, the last time on the rest;
      the answers stay only if no collector merges them. */
  lemma ChunksReturn(
    su: Setup, order: seq<string>, workers: nat, actions: seq<Scheduler.Action>, collectorOrder: seq<string>,
    step: string, i: nat)
    requires GoodRun(su, order, workers, actions, collectorOrder)
    requires step in su.steps && step in su.batchInput && su.opt.isBatch && su.opt.batchSize > 0
    requires i * su.opt.batchSize < |su.batchInput[step]|
    ensures var out, key := Returned(su, order, workers, actions, collectorOrder), step + "#batch_" + Decimal(i + 1);
            if step in su.collectors then key !in out
            else Holds(out, key, su.steps[step](List(Piece(su.batchInput[step], su.opt.batchSize, i))))
  {
    PieceIsChunk(su.batchInput[step], su.opt.batchSize, i);
    ChunkIsPiece(su.batchInput[step], su.opt.batchSize, i);
    EntryOfJob(su, order, workers, actions, collectorOrder, step, i);
    hide GoodRun, Returned, Chunked, Piece;
    NotClean(step, Decimal(i + 1));
    KeysAreClean(su, order, workers, actions, collectorOrder);
  }

  /** The answers of a step for its chunks, in the order of its items. */
  ghost predicate PieceAnswers(rs: seq<Response>, fn: StepFn, items: seq<Value>, size: nat) {
    && (forall i: nat :: i < |rs| <==> i * size < |items|)
    && forall i :: 0 <= i < |rs| && i * size <= |items| ==>
         rs[i] == Response(fn(List(Piece(items, size, i))).output, fn(List(Piece(items, size, i))).err, true)
  }

  /** A collector is called once, on the answers for the chunks of its step in order, or on none if
      its key names no step whose batch is split. */
  lemma CollectorReturns(
    su: Setup, order: seq<string>, workers: nat, actions: seq<Scheduler.Action>, collectorOrder: seq<string>,
    step: string) returns (rs: seq<Response>)
    requires GoodRun(su, order, workers, actions, collectorOrder) && step in su.collectors
    ensures Holds(Returned(su, order, workers, actions, collectorOrder), step, su.collectors[step](step, rs))
    ensures if step in su.steps && step in su.batchInput && su.opt.isBatch && su.opt.batchSize > 0
            then PieceAnswers(rs, su.steps[step], su.batchInput[step], su.opt.batchSize)
            else rs == []
  {
    RunMeansSequential(su, order, workers, actions, collectorOrder, step);
    rs := ChunkResponses(su, step, RunMeaning.Sequential(su));
    KeysAreClean(su, order, workers, actions, collectorOrder);
    if IsChunked(su, step) {
      ResponsesArePieces(su, step);
    } else if step in su.steps && step in su.batchInput && su.opt.isBatch && su.opt.batchSize > 0 {
      NoPieces(su.opt.batchSize);
    }
    hide GoodRun, Output, LogOf, RunMeaning.Sequential;
  }

  lemma ResponsesArePieces(su: Setup, step: string)
    requires WellKeyed(su) && IsChunked(su, step)
    ensures step in su.batchInput
    ensures PieceAnswers(ChunkResponses(su, step, RunMeaning.Sequential(su)), su.steps[step], su.batchInput[step],
                         su.opt.batchSize)
  {
    hide JobFor;
    var items, size := su.batchInput[step], su.opt.batchSize;
    var rs := ChunkResponses(su, step, RunMeaning.Sequential(su));
    forall i: nat ensures i < |rs| <==> i * size < |items| {
      if i < |rs| {
        ChunkIsPiece(items, size, i);
      } else if i * size < |items| {
        PieceIsChunk(items, size, i);
      }
    }
    forall i | 0 <= i < |rs| && i * size <= |items|
      ensures rs[i] == Response(su.steps[step](List(Piece(items, size, i))).output,
                                su.steps[step](List(Piece(items, size, i))).err, true)
    {
      ChunkIsPiece(items, size, i);
      KeyNamesJob(su, step, i);
    }
  }

  lemma NoPieces(size: nat)
    requires size > 0
    ensures forall i: nat :: i * size >= 0
  {}

  /** There is no other entry. */
  lemma NothingElseReturned(
    su: Setup, order: seq<string>, workers: nat, actions: seq<Scheduler.Action>, collectorOrder: seq<string>,
    key: string)
    requires GoodRun(su, order, workers, actions, collectorOrder)
    requires key in Returned(su, order, workers, actions, collectorOrder) && key !in su.collectors
    ensures || (key in su.steps && (key in su.batchInput ==> su.batchInput[key] == []))
            || exists step, tail :: step in su.steps && step in su.batchInput && su.batchInput[step] != []
                                    && key == step + "#batch_" + tail
  {
    RunMeansSequential(su, order, workers, actions, collectorOrder, key);
    assert JobFor(su, key).Some?;
    hide Output, LogOf, CompleteRun, WellKeyed, Undisturbed, Scheduler.Answers, ParseBatchKey;
    if key !in su.steps {
      var pos := Index(key, SEP).value;
      assert key[..pos] + SEP + key[pos + |SEP|..] == key;
    }
  }
}
