/** Executions of the Scheduler in which the jobs finish one after another: with one worker that is
    every execution, and with any number of workers there is such an execution. */
module Sequential {
  import opened Responses
  import opened Scheduler

  // ----------------------------------------------------------- a single worker

  /** Nothing is recorded out of order, and at most the last launched job is not recorded yet. */
  ghost predicate InJobOrder(c: Config, s: State) {
    var n := Position(c, s.dispatcher);
    && (forall k :: 0 <= k < |s.log| ==> s.log[k].job == k)
    && (|s.log| == n
        || (|s.log| + 1 == n && n <= |s.phases| && (s.phases[n - 1].Running? || s.phases[n - 1].Returned?)))
  }

  /** The only job that can be recorded is the first that is not. */
  lemma RecordsNext(c: Config, s: State, j: nat)
    requires Inv(c, s) && InJobOrder(c, s) && j < |s.phases| && s.phases[j].Returned?
    ensures j == |s.log| && |s.log| + 1 == Position(c, s.dispatcher)
  {
    hide CountInv, CancelInv, AwaitInv, Sum;
    forall k | 0 <= k < |s.log| ensures !s.phases[k].Returned? {
      assert s.log[k].job == k && s.phases[s.log[k].job].Logged();
    }
  }

  lemma StepKeepsOrder(c: Config, s: State, a: Action)
    requires Inv(c, s) && InJobOrder(c, s) && c.workers == 1 && !c.blockError && Enabled(c, s, a)
    ensures InJobOrder(c, Step(c, s, a))
  {
    NoSkipping(c, s);
    if a.Dispatch? && s.dispatcher.Acquiring? {
      NobodyHolds(c, s);
    }
    if a.Record? {
      RecordsNext(c, s, a.job);
    }
    hide CountInv, CancelInv, AwaitInv, LogInv, Sum;
  }

  lemma NoSkipping(c: Config, s: State)
    requires Inv(c, s) && !c.blockError
    ensures !s.dispatcher.Skipping?
  {}

  lemma NobodyHolds(c: Config, s: State)
    requires Inv(c, s) && c.workers == 1 && s.dispatcher.Acquiring? && Enabled(c, s, Dispatch)
    ensures forall j :: 0 <= j < |s.phases| ==> !s.phases[j].Holding()
  {
    forall j | 0 <= j < |s.phases| ensures !s.phases[j].Holding() {
      ZeroSum(s.phases, HOLDING, j);
    }
  }

  lemma {:induction false} ExecutionKeepsOrder(c: Config, s: State, actions: seq<Action>)
    requires Inv(c, s) && InJobOrder(c, s) && c.workers == 1 && !c.blockError && Legal(c, s, actions)
    ensures InJobOrder(c, After(c, s, actions))
    decreases |actions|
  {
    if actions != [] {
      StepKeepsOrder(c, s, actions[0]);
      StepKeepsInv(c, s, actions[0]);
      hide Inv, InJobOrder, Enabled, Step;
      ExecutionKeepsOrder(c, Step(c, s, actions[0]), actions[1..]);
    }
  }

  /** With one worker, at every moment of every execution, jobs have been recorded in their order. */
  lemma OneWorkerInOrder(c: Config, actions: seq<Action>)
    requires c.workers == 1 && !c.blockError && Legal(c, Init(c), actions)
    ensures var log := After(c, Init(c), actions).log;
            forall k :: 0 <= k < |log| ==> log[k].job == k
  {
    InitInv(c);
    ExecutionKeepsOrder(c, Init(c), actions);
  }

  // ------------------------------------------------- one job after the other

  lemma {:induction false} LegalInTwo(c: Config, s: State, a: seq<Action>, b: seq<Action>)
    requires Legal(c, s, a) && Legal(c, After(c, s, a), b)
    ensures Legal(c, s, a + b) && After(c, s, a + b) == After(c, After(c, s, a), b)
    decreases |a|
  {
    hide Enabled, Step;
    if a == [] {
      assert a + b == b;
    } else {
      assert (a + b)[0] == a[0] && (a + b)[1..] == a[1..] + b;
      LegalInTwo(c, Step(c, s, a[0]), a[1..], b);
    }
  }

  lemma LegalOne(c: Config, s: State, a: Action)
    requires Enabled(c, s, a)
    ensures Legal(c, s, [a]) && After(c, s, [a]) == Step(c, s, a)
  {
    hide Enabled, Step;
    assert [a][1..] == [];
  }

  /** The state in which the first n jobs are over and no other was reached. */
  function Finished(c: Config, answers: seq<Response>, n: nat): State
    requires n <= c.jobs == |answers|
  {
    State(Testing(n), seq(c.jobs, i requires 0 <= i < c.jobs => if i < n then Exited(answers[i]) else Waiting), 0, 0,
          false, false, seq(n, i requires 0 <= i < n => Entry(i, answers[i])))
  }

  function JobActions(answers: seq<Response>, n: nat): seq<Action>
    requires n < |answers|
  {
    [Dispatch, Dispatch, Return(n, answers[n]), Record(n), Settle(n), Release(n), Exit(n)]
  }

  function AllActions(answers: seq<Response>, n: nat): seq<Action>
    requires n <= |answers|
  {
    if n == 0 then [] else AllActions(answers, n - 1) + JobActions(answers, n - 1)
  }

  lemma LegalNext(c: Config, s: State, actions: seq<Action>, a: Action)
    requires Legal(c, s, actions) && Enabled(c, After(c, s, actions), a)
    ensures Legal(c, s, actions + [a]) && After(c, s, actions + [a]) == Step(c, After(c, s, actions), a)
  {
    LegalOne(c, After(c, s, actions), a);
    LegalInTwo(c, s, actions, [a]);
  }

  lemma OneJob(c: Config, answers: seq<Response>, n: nat)
    requires !c.blockError && c.workers >= 1 && n < c.jobs == |answers| && answers[n].isExecute
    ensures var s := Finished(c, answers, n);
            Legal(c, s, JobActions(answers, n)) && After(c, s, JobActions(answers, n)) == Finished(c, answers, n + 1)
  {
    var s, t, as_ := Finished(c, answers, n), Finished(c, answers, n + 1), JobActions(answers, n);
    var r := answers[n];
    var s2 := s.(dispatcher := Testing(n + 1), phases := s.phases[n := Running], held := 1, wg := 1);
    var s3 := s2.(phases := s.phases[n := Returned(r)]);
    var s4 := s2.(phases := s.phases[n := Recorded(r)], log := t.log);
    var s5 := s4.(phases := s.phases[n := Settled(r)]);
    var s6 := s5.(phases := s.phases[n := Released(r)], held := 0);
    assert t.log == s.log + [Entry(n, r)];
    assert t == s6.(phases := s.phases[n := Exited(r)], wg := 0);
    assert Step(c, s, Dispatch) == s.(dispatcher := Acquiring(n), wg := 1);
    assert Step(c, Step(c, s, Dispatch), Dispatch) == s2;
    assert Step(c, s2, as_[2]) == s3;
    assert Step(c, s3, as_[3]) == s4;
    assert Step(c, s4, as_[4]) == s5;
    assert Step(c, s5, as_[5]) == s6;
    assert Step(c, s6, as_[6]) == t;
    hide Step;
    LegalOne(c, s, Dispatch);
    LegalNext(c, s, [Dispatch], Dispatch);
    LegalNext(c, s, [Dispatch] + [Dispatch], as_[2]);
    LegalNext(c, s, [Dispatch] + [Dispatch] + [as_[2]], as_[3]);
    LegalNext(c, s, [Dispatch] + [Dispatch] + [as_[2]] + [as_[3]], as_[4]);
    LegalNext(c, s, [Dispatch] + [Dispatch] + [as_[2]] + [as_[3]] + [as_[4]], as_[5]);
    LegalNext(c, s, [Dispatch] + [Dispatch] + [as_[2]] + [as_[3]] + [as_[4]] + [as_[5]], as_[6]);
    assert as_ == [Dispatch] + [Dispatch] + [as_[2]] + [as_[3]] + [as_[4]] + [as_[5]] + [as_[6]];
  }

  lemma {:induction false} FirstJobs(c: Config, answers: seq<Response>, n: nat)
    requires !c.blockError && c.workers >= 1 && n <= c.jobs == |answers|
    requires forall i :: 0 <= i < |answers| ==> answers[i].isExecute
    ensures Legal(c, Init(c), AllActions(answers, n))
    ensures After(c, Init(c), AllActions(answers, n)) == Finished(c, answers, n)
    ensures Answers(AllActions(answers, n), answers)
  {
    hide Legal, After;
    if n == 0 {
      LegalNone(c, Init(c));
      assert Init(c) == Finished(c, answers, 0);
    } else {
      FirstJobs(c, answers, n - 1);
      OneJob(c, answers, n - 1);
      LegalInTwo(c, Init(c), AllActions(answers, n - 1), JobActions(answers, n - 1));
    }
  }

  lemma LegalNone(c: Config, s: State)
    ensures Legal(c, s, []) && After(c, s, []) == s
  {}

  /** There is an execution to the end in which the jobs are recorded in their order, whatever they
      return and however many workers there are. */
  lemma InOrderExecution(c: Config, answers: seq<Response>) returns (actions: seq<Action>)
    requires !c.blockError && c.workers >= 1 && c.jobs == |answers|
    requires forall i :: 0 <= i < |answers| ==> answers[i].isExecute
    ensures Legal(c, Init(c), actions) && Maximal(c, Init(c), actions) && Answers(actions, answers)
    ensures After(c, Init(c), actions).log == seq(c.jobs, i requires 0 <= i < c.jobs => Entry(i, answers[i]))
  {
    var jobs := AllActions(answers, c.jobs);
    FirstJobs(c, answers, c.jobs);
    LegalNext(c, Init(c), jobs, Dispatch);
    LegalNext(c, Init(c), jobs + [Dispatch], Dispatch);
    actions := jobs + [Dispatch] + [Dispatch];
    hide Legal, After;
  }
}
