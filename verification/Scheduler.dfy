/** The concurrent part of goroutine/goroutine.go's Run as a transition system: one dispatch
    loop, one goroutine per launched job, a counting semaphore, a wait group and a
    cancellable context, interleaved arbitrarily.  A step of the system is an action; an
    execution is a list of actions.  */
module Scheduler {
  import opened Text
  import opened Responses

  // ------------------------------------------------------------------- states

  /** Where the goroutine of one job stands. */
  datatype Phase =
    | Waiting                        // the dispatch loop has not reached the job
    | Running                        // holds a token, inside executeJob
    | Returned(resp: Response)       // executeJob returned, nothing recorded yet
    | Recorded(resp: Response)       // recordResponse done, cancel test ahead
    | Settled(resp: Response)        // past the cancel test
    | Released(resp: Response)       // token given back, wg.Done ahead
    | Exited(resp: Response)         // goroutine over
    | Skipped                        // recorded by the dispatch loop, never launched
  {
    predicate Holding() { Running? || Returned? || Recorded? || Settled? }
    predicate Counted() { Holding() || Released? }
    predicate Logged() { Recorded? || Settled? || Released? || Exited? || Skipped? }
    predicate Launched() { !Waiting? && !Skipped? }
    predicate Answered() { Launched() && !Running? }
    predicate PastCancelTest() { Settled? || Released? || Exited? }
    function Response(): Response
      requires Logged()
    {
      if Skipped? then SKIPPED else resp
    }
  }

  datatype Dispatcher =
    | Testing(next: nat)             // head of the loop for job `next`
    | Skipping(next: nat)            // found the context done: about to record the job
    | Acquiring(next: nat)           // after wg.Add(1), waiting for a token
    | Awaiting                       // in wg.Wait
    | Over                           // wg.Wait returned

  datatype Entry = Entry(job: nat, resp: Response)

  datatype Config = Config(jobs: nat, workers: nat, blockError: bool)

  datatype State = State(
    dispatcher: Dispatcher,
    phases: seq<Phase>,
    held: nat,                       // tokens in the semaphore channel
    wg: nat,                         // wait group counter
    parentDone: bool,                // the caller's context is done
    ownCancel: bool,                 // cancel() was called by a failing job
    log: seq<Entry>)                 // the recordResponse calls, in the order the mutex admits them

  datatype Action =
    | Dispatch                       // the dispatch loop takes its next step
    | Return(job: nat, resp: Response)
    | Record(job: nat)
    | Settle(job: nat)
    | Release(job: nat)
    | Exit(job: nat)
    | CancelParent                   // environment

  function Init(c: Config): State {
    State(Testing(0), seq(c.jobs, _ => Waiting), 0, 0, false, false, [])
  }

  predicate ContextDone(s: State) { s.parentDone || s.ownCancel }

  function Position(c: Config, d: Dispatcher): nat {
    match d
    case Testing(i) => i
    case Skipping(i) => i
    case Acquiring(i) => i
    case Awaiting => c.jobs
    case Over => c.jobs
  }

  predicate DispatchEnabled(c: Config, s: State) {
    match s.dispatcher
    case Testing(i) => true
    case Skipping(i) => i < |s.phases|
    case Acquiring(i) => i < |s.phases| && s.held < c.workers
    case Awaiting => s.wg == 0
    case Over => false
  }

  predicate Enabled(c: Config, s: State, a: Action) {
    match a
    case Dispatch => DispatchEnabled(c, s)
    case Return(j, resp) => j < |s.phases| && s.phases[j].Running? && resp.isExecute
    case Record(j) => j < |s.phases| && s.phases[j].Returned?
    case Settle(j) => j < |s.phases| && s.phases[j].Recorded?
    case Release(j) => j < |s.phases| && s.phases[j].Settled? && s.held > 0
    case Exit(j) => j < |s.phases| && s.phases[j].Released? && s.wg > 0
    case CancelParent => !s.parentDone
  }

  function DispatchStep(c: Config, s: State): State
    requires DispatchEnabled(c, s)
  {
    match s.dispatcher
    case Testing(i) =>
      if i >= c.jobs then s.(dispatcher := Awaiting)
      else if c.blockError && ContextDone(s) then s.(dispatcher := Skipping(i))
      else s.(dispatcher := Acquiring(i), wg := s.wg + 1)
    case Skipping(i) =>
      s.(dispatcher := Testing(i + 1), phases := s.phases[i := Skipped], log := s.log + [Entry(i, SKIPPED)])
    case Acquiring(i) =>
      s.(dispatcher := Testing(i + 1), phases := s.phases[i := Running], held := s.held + 1)
    case Awaiting => s.(dispatcher := Over)
  }

  function Step(c: Config, s: State, a: Action): State
    requires Enabled(c, s, a)
  {
    match a
    case Dispatch => DispatchStep(c, s)
    case Return(j, resp) => s.(phases := s.phases[j := Returned(resp)])
    case Record(j) =>
      var resp := s.phases[j].resp;
      s.(phases := s.phases[j := Recorded(resp)], log := s.log + [Entry(j, resp)])
    case Settle(j) =>
      var resp := s.phases[j].resp;
      s.(phases := s.phases[j := Settled(resp)],
         ownCancel := s.ownCancel || (c.blockError && resp.err.Some?))
    case Release(j) => s.(phases := s.phases[j := Released(s.phases[j].resp)], held := s.held - 1)
    case Exit(j) => s.(phases := s.phases[j := Exited(s.phases[j].resp)], wg := s.wg - 1)
    case CancelParent => s.(parentDone := true)
  }

  // --------------------------------------------------------------- executions

  ghost predicate Legal(c: Config, s: State, actions: seq<Action>)
    decreases |actions|
  {
    actions != [] ==>
      Enabled(c, s, actions[0]) && Legal(c, Step(c, s, actions[0]), actions[1..])
  }

  ghost function After(c: Config, s: State, actions: seq<Action>): State
    requires Legal(c, s, actions)
    decreases |actions|
  {
    if actions == [] then s else After(c, Step(c, s, actions[0]), actions[1..])
  }

  // ---------------------------------------------------------------- invariant

  /** Sum of a weight over all phases; with a weight of 0 or 1 it counts them. */
  function Sum(phases: seq<Phase>, weight: Phase -> nat): nat {
    if phases == [] then 0
    else Sum(phases[..|phases| - 1], weight) + weight(phases[|phases| - 1])
  }

  const HOLDING: Phase -> nat := (p: Phase) => if p.Holding() then 1 else 0
  const COUNTED: Phase -> nat := (p: Phase) => if p.Counted() then 1 else 0
  const RUNNING: Phase -> nat := (p: Phase) => if p.Running? then 1 else 0
  const LAUNCHED: Phase -> nat := (p: Phase) => if p.Launched() then 1 else 0

  /** The dispatch loop has passed exactly the jobs that are no longer waiting. */
  ghost predicate PositionInv(c: Config, s: State) {
    && |s.phases| == c.jobs
    && Position(c, s.dispatcher) <= c.jobs
    && (s.dispatcher.Skipping? || s.dispatcher.Acquiring? ==> Position(c, s.dispatcher) < c.jobs)
    && (forall j :: 0 <= j < c.jobs ==> (s.phases[j].Waiting? <==> j >= Position(c, s.dispatcher)))
  }

  /** Tokens held are the goroutines between launch and release; the wait group also counts
      those about to exit and the job whose token is awaited. */
  ghost predicate CountInv(c: Config, s: State) {
    && s.held == Sum(s.phases, HOLDING) <= c.workers
    && s.wg == Sum(s.phases, COUNTED) + (if s.dispatcher.Acquiring? then 1 else 0)
  }

  ghost predicate InLog(log: seq<Entry>, j: nat) {
    exists k :: 0 <= k < |log| && log[k].job == j
  }

  /** The log holds each recorded job once, with the response of that job. */
  ghost predicate LogInv(c: Config, s: State) {
    && |s.phases| == c.jobs
    && (forall k :: 0 <= k < |s.log| ==>
          s.log[k].job < c.jobs && s.phases[s.log[k].job].Logged()
          && s.log[k].resp == s.phases[s.log[k].job].Response())
    && (forall k, l :: 0 <= k < l < |s.log| ==> s.log[k].job != s.log[l].job)
    && (forall j :: 0 <= j < c.jobs && s.phases[j].Logged() ==> InLog(s.log, j))
  }

  ghost predicate AwaitInv(c: Config, s: State) {
    s.dispatcher.Over? ==> s.wg == 0
  }

  ghost predicate FailedPhase(p: Phase) { p.Launched() && p.Logged() && p.resp.Failed() }

  /** Why a context is done, and when a job may be skipped. */
  ghost predicate CancelInv(c: Config, s: State) {
    && (forall j :: 0 <= j < |s.phases| && s.phases[j].Answered() ==> s.phases[j].resp.isExecute)
    && (c.blockError ==>
          forall j :: 0 <= j < |s.phases| && s.phases[j].PastCancelTest() && s.phases[j].resp.err.Some? ==> s.ownCancel)
    && (s.ownCancel ==> c.blockError && exists j :: 0 <= j < |s.phases| && FailedPhase(s.phases[j]))
    && (s.dispatcher.Skipping? ==> c.blockError && ContextDone(s))
    && (forall j :: 0 <= j < |s.phases| && s.phases[j].Skipped? ==> c.blockError && ContextDone(s))
  }

  ghost predicate Inv(c: Config, s: State) {
    && PositionInv(c, s)
    && CountInv(c, s)
    && LogInv(c, s)
    && AwaitInv(c, s)
    && CancelInv(c, s)
  }

  // ---------------------------------------------- every step keeps the invariant

  lemma {:induction false} SumUpdate(phases: seq<Phase>, j: nat, p: Phase, weight: Phase -> nat)
    requires j < |phases|
    ensures Sum(phases[j := p], weight) == Sum(phases, weight) - weight(phases[j]) + weight(p)
  {
    var last := |phases| - 1;
    if j == last {
      assert phases[j := p][..last] == phases[..last];
    } else {
      SumUpdate(phases[..last], j, p, weight);
      assert phases[j := p][..last] == phases[..last][j := p];
    }
  }

  lemma {:induction false} SumConstant(n: nat, p: Phase, weight: Phase -> nat)
    ensures Sum(seq(n, _ => p), weight) == n * weight(p)
  {
    if n > 0 {
      var all := seq(n, _ => p);
      assert all[..n - 1] == seq(n - 1, _ => p);
      SumConstant(n - 1, p, weight);
      assert n * weight(p) == (n - 1) * weight(p) + weight(p);
    }
  }

  lemma InitInv(c: Config)
    ensures Inv(c, Init(c))
  {
    SumConstant(c.jobs, Waiting, HOLDING);
    SumConstant(c.jobs, Waiting, COUNTED);
  }

  lemma StepKeepsPosition(c: Config, s: State, a: Action)
    requires Inv(c, s) && Enabled(c, s, a)
    ensures PositionInv(c, Step(c, s, a))
  {}

  /** The phase an action moves a job to, if it moves one. */
  function Moved(c: Config, s: State, a: Action): Option<(nat, Phase)>
    requires Enabled(c, s, a)
  {
    match a
    case Dispatch =>
      (match s.dispatcher
       case Skipping(i) => Some((i, Skipped))
       case Acquiring(i) => Some((i, Running))
       case Testing(_) => None
       case Awaiting => None)
    case Return(j, resp) => Some((j, Returned(resp)))
    case Record(j) => Some((j, Recorded(s.phases[j].resp)))
    case Settle(j) => Some((j, Settled(s.phases[j].resp)))
    case Release(j) => Some((j, Released(s.phases[j].resp)))
    case Exit(j) => Some((j, Exited(s.phases[j].resp)))
    case CancelParent => None
  }

  lemma SumAfter(c: Config, s: State, a: Action, weight: Phase -> nat)
    requires Enabled(c, s, a)
    ensures var m := Moved(c, s, a);
            Sum(Step(c, s, a).phases, weight)
            == if m.Some? then Sum(s.phases, weight) - weight(s.phases[m.value.0]) + weight(m.value.1)
               else Sum(s.phases, weight)
  {
    var m := Moved(c, s, a);
    if m.Some? {
      SumUpdate(s.phases, m.value.0, m.value.1, weight);
    }
  }

  lemma StepKeepsCounts(c: Config, s: State, a: Action)
    requires Inv(c, s) && Enabled(c, s, a)
    ensures CountInv(c, Step(c, s, a)) && AwaitInv(c, Step(c, s, a))
  {
    SumAfter(c, s, a, HOLDING);
    SumAfter(c, s, a, COUNTED);
    hide Sum;
  }

  /** A job that is not yet logged is appended to the log and moved to a logged phase. */
  lemma LogGrows(c: Config, s: State, t: State, j: nat, p: Phase)
    requires LogInv(c, s) && j < c.jobs && !s.phases[j].Logged() && p.Logged()
    requires t.phases == s.phases[j := p] && t.log == s.log + [Entry(j, p.Response())]
    ensures LogInv(c, t)
  {
    forall i | 0 <= i < c.jobs && t.phases[i].Logged() ensures InLog(t.log, i) {
      if i == j {
        assert t.log[|s.log|].job == i;
      } else {
        assert InLog(s.log, i);
        var k :| 0 <= k < |s.log| && s.log[k].job == i;
        assert t.log[k].job == i;
      }
    }
  }

  /** A move that keeps the log keeps the invariant if it does not touch what is logged. */
  lemma LogStays(c: Config, s: State, t: State, j: nat, p: Phase)
    requires LogInv(c, s) && j < c.jobs && t.phases == s.phases[j := p] && t.log == s.log
    requires s.phases[j].Logged() == p.Logged()
    requires p.Logged() ==> p.Response() == s.phases[j].Response()
    ensures LogInv(c, t)
  {
    forall i | 0 <= i < c.jobs && t.phases[i].Logged() ensures InLog(t.log, i) {
      assert InLog(s.log, i);
    }
  }

  lemma StepKeepsLog(c: Config, s: State, a: Action)
    requires Inv(c, s) && Enabled(c, s, a)
    ensures LogInv(c, Step(c, s, a))
  {
    var t := Step(c, s, a);
    var m := Moved(c, s, a);
    if m.Some? {
      if a.Record? || (a.Dispatch? && s.dispatcher.Skipping?) {
        LogGrows(c, s, t, m.value.0, m.value.1);
      } else {
        LogStays(c, s, t, m.value.0, m.value.1);
      }
    }
  }

  /** A move that keeps the flags keeps the invariant if the new phase obeys it. */
  lemma CancelStays(c: Config, s: State, t: State, j: nat, p: Phase)
    requires CancelInv(c, s) && j < |s.phases| && t.phases == s.phases[j := p]
    requires s.ownCancel == t.ownCancel && s.parentDone == t.parentDone && !t.dispatcher.Skipping?
    requires p.Answered() ==> p.resp.isExecute
    requires c.blockError && p.PastCancelTest() && p.resp.err.Some? ==> s.ownCancel
    requires FailedPhase(s.phases[j]) ==> FailedPhase(p)
    requires p.Skipped? ==> c.blockError && ContextDone(s)
    ensures CancelInv(c, t)
  {
    if s.ownCancel {
      var i :| 0 <= i < |s.phases| && FailedPhase(s.phases[i]);
      assert FailedPhase(t.phases[i]);
    }
  }

  /** A job that failed and finds block-error on cancels the context. */
  lemma SettleKeepsCancel(c: Config, s: State, j: nat)
    requires Inv(c, s) && Enabled(c, s, Settle(j))
    ensures CancelInv(c, Step(c, s, Settle(j)))
  {
    var t := Step(c, s, Settle(j));
    if s.ownCancel {
      var i :| 0 <= i < |s.phases| && FailedPhase(s.phases[i]);
      assert FailedPhase(t.phases[i]);
    } else if t.ownCancel {
      assert FailedPhase(t.phases[j]);
    }
  }

  lemma StepKeepsCancel(c: Config, s: State, a: Action)
    requires Inv(c, s) && Enabled(c, s, a)
    ensures CancelInv(c, Step(c, s, a))
  {
    var m := Moved(c, s, a);
    if a.Settle? {
      SettleKeepsCancel(c, s, a.job);
    } else if m.Some? {
      var t := Step(c, s, a);
      var u := t.(dispatcher := Over);
      CancelStays(c, s, u, m.value.0, m.value.1);
      assert t.dispatcher.Skipping? ==> c.blockError && ContextDone(s);
    }
  }

  lemma StepKeepsInv(c: Config, s: State, a: Action)
    requires Inv(c, s) && Enabled(c, s, a)
    ensures Inv(c, Step(c, s, a))
  {
    StepKeepsPosition(c, s, a);
    StepKeepsCounts(c, s, a);
    StepKeepsLog(c, s, a);
    StepKeepsCancel(c, s, a);
  }

  lemma {:induction false} ExecutionKeepsInv(c: Config, s: State, actions: seq<Action>)
    requires Inv(c, s) && Legal(c, s, actions)
    ensures Inv(c, After(c, s, actions))
    decreases |actions|
  {
    if actions != [] {
      StepKeepsInv(c, s, actions[0]);
      ExecutionKeepsInv(c, Step(c, s, actions[0]), actions[1..]);
    }
  }

  // ------------------------------------------------------------------- safety

  lemma {:induction false} ZeroSum(phases: seq<Phase>, weight: Phase -> nat, j: nat)
    requires Sum(phases, weight) == 0 && j < |phases|
    ensures weight(phases[j]) == 0
  {
    if j < |phases| - 1 {
      ZeroSum(phases[..|phases| - 1], weight, j);
    }
  }

  lemma {:induction false} SumMonotone(phases: seq<Phase>, low: Phase -> nat, high: Phase -> nat)
    requires forall p :: low(p) <= high(p)
    ensures Sum(phases, low) <= Sum(phases, high)
  {
    if phases != [] {
      SumMonotone(phases[..|phases| - 1], low, high);
    }
  }

  /** Never more step functions running than tokens held, never more tokens than workers. */
  lemma WorkersBounded(c: Config, actions: seq<Action>)
    requires Legal(c, Init(c), actions)
    ensures var s := After(c, Init(c), actions);
            Sum(s.phases, RUNNING) <= s.held == Sum(s.phases, HOLDING) <= c.workers
  {
    InitInv(c);
    ExecutionKeepsInv(c, Init(c), actions);
    SumMonotone(After(c, Init(c), actions).phases, RUNNING, HOLDING);
  }

  // ----------------------------------------------------------------- progress

  /** An action of the program itself that is enabled, in any state but the final one. */
  function NextAction(c: Config, s: State): Action
    requires |s.phases| == c.jobs
  {
    if exists j :: 0 <= j < c.jobs && s.phases[j].Counted() then
      var j: nat := FirstCounted(s.phases, 0);
      (match s.phases[j]
       case Running => Return(j, Response(Nil, None, true))
       case Returned(_) => Record(j)
       case Recorded(_) => Settle(j)
       case Settled(_) => Release(j)
       case _ => Exit(j))
    else Dispatch
  }

  function FirstCounted(phases: seq<Phase>, i: nat): (j: nat)
    requires exists k :: i <= k < |phases| && phases[k].Counted()
    ensures i <= j < |phases| && phases[j].Counted()
    decreases |phases| - i
  {
    if phases[i].Counted() then i else FirstCounted(phases, i + 1)
  }

  lemma {:induction false} SumPositive(phases: seq<Phase>, weight: Phase -> nat, j: nat)
    requires j < |phases|
    ensures Sum(phases, weight) >= weight(phases[j])
  {
    if j < |phases| - 1 {
      SumPositive(phases[..|phases| - 1], weight, j);
    }
  }

  lemma {:induction false} SumZero(phases: seq<Phase>, weight: Phase -> nat)
    requires forall j :: 0 <= j < |phases| ==> weight(phases[j]) == 0
    ensures Sum(phases, weight) == 0
  {
    if phases != [] {
      SumZero(phases[..|phases| - 1], weight);
    }
  }

  lemma NeverStuck(c: Config, s: State)
    requires Inv(c, s) && c.workers >= 1 && !s.dispatcher.Over?
    ensures Enabled(c, s, NextAction(c, s)) && !NextAction(c, s).CancelParent?
  {
    if exists j :: 0 <= j < c.jobs && s.phases[j].Counted() {
      var j := FirstCounted(s.phases, 0);
      SumPositive(s.phases, HOLDING, j);
      SumPositive(s.phases, COUNTED, j);
    } else {
      SumZero(s.phases, HOLDING);
      SumZero(s.phases, COUNTED);
    }
  }

  const WORK: Phase -> nat :=
    (p: Phase) => match p
      case Waiting => 6
      case Running => 5
      case Returned(_) => 4
      case Recorded(_) => 3
      case Settled(_) => 2
      case Released(_) => 1
      case Exited(_) => 0
      case Skipped => 0

  function DispatchWork(c: Config, d: Dispatcher): nat
    requires Position(c, d) <= c.jobs
  {
    match d
    case Testing(i) => 3 * (c.jobs - i) + 2
    case Skipping(i) => 3 * (c.jobs - i) + 1
    case Acquiring(i) => 3 * (c.jobs - i) + 1
    case Awaiting => 1
    case Over => 0
  }

  /** The number of steps still possible is at most this. */
  function Remaining(c: Config, s: State): nat
    requires Position(c, s.dispatcher) <= c.jobs
  {
    Sum(s.phases, WORK) + DispatchWork(c, s.dispatcher) + (if s.parentDone then 0 else 1)
  }

  lemma StepDecreasesWork(c: Config, s: State, a: Action)
    requires PositionInv(c, s) && Enabled(c, s, a) && PositionInv(c, Step(c, s, a))
    ensures Remaining(c, Step(c, s, a)) < Remaining(c, s)
  {
    SumAfter(c, s, a, WORK);
    hide Sum;
  }

  /** No execution, under any interleaving, is longer than 9n + 3 steps. */
  lemma ExecutionsAreFinite(c: Config, actions: seq<Action>)
    requires Legal(c, Init(c), actions)
    ensures |actions| <= 9 * c.jobs + 3
  {
    InitInv(c);
    BoundedByWork(c, Init(c), actions);
    SumConstant(c.jobs, Waiting, WORK);
  }

  lemma {:induction false} BoundedByWork(c: Config, s: State, actions: seq<Action>)
    requires Inv(c, s) && Legal(c, s, actions)
    ensures |actions| <= Remaining(c, s)
    decreases |actions|
  {
    if actions != [] {
      StepKeepsInv(c, s, actions[0]);
      StepDecreasesWork(c, s, actions[0]);
      BoundedByWork(c, Step(c, s, actions[0]), actions[1..]);
    }
  }

  /** Every job exactly once, with an executed response or as skipped. */
  ghost predicate CompleteLog(c: Config, log: seq<Entry>) {
    && (forall k :: 0 <= k < |log| ==> log[k].job < c.jobs)
    && (forall k, l :: 0 <= k < l < |log| ==> log[k].job != log[l].job)
    && (forall j :: 0 <= j < c.jobs ==> InLog(log, j))
    && (forall k :: 0 <= k < |log| ==> log[k].resp.isExecute || log[k].resp == SKIPPED)
  }

  ghost predicate Maximal(c: Config, s: State, actions: seq<Action>)
    requires Legal(c, s, actions)
  {
    forall a :: Enabled(c, After(c, s, actions), a) ==> a.CancelParent?
  }

  /** Every execution that the program cannot extend has ended, with each job recorded once. */
  lemma MaximalExecutionsComplete(c: Config, actions: seq<Action>)
    requires c.workers >= 1 && Legal(c, Init(c), actions) && Maximal(c, Init(c), actions)
    ensures var s := After(c, Init(c), actions);
            s.dispatcher.Over? && s.held == 0 && CompleteLog(c, s.log)
  {
    InitInv(c);
    ExecutionKeepsInv(c, Init(c), actions);
    var s := After(c, Init(c), actions);
    if !s.dispatcher.Over? {
      NeverStuck(c, s);
    }
    OverIsComplete(c, s);
  }

  lemma OverIsComplete(c: Config, s: State)
    requires Inv(c, s) && s.dispatcher.Over?
    ensures s.held == 0 && CompleteLog(c, s.log)
    ensures forall j :: 0 <= j < c.jobs ==> s.phases[j].Exited? || s.phases[j].Skipped?
  {
    forall j | 0 <= j < c.jobs
      ensures (s.phases[j].Exited? || s.phases[j].Skipped?) && !s.phases[j].Holding()
    {
      ZeroSum(s.phases, COUNTED, j);
    }
    SumZero(s.phases, HOLDING);
  }

  // -------------------------------------------------------------- block error

  function Pending(s: State): nat { if s.dispatcher.Acquiring? then 1 else 0 }

  /** Not launched, and not the job whose token is being awaited. */
  ghost predicate PassedOver(s: State, j: nat)
    requires j < |s.phases|
  {
    s.phases[j].Skipped? || (s.phases[j].Waiting? && s.dispatcher != Acquiring(j))
  }

  lemma CancelledStep(c: Config, s: State, a: Action)
    requires PositionInv(c, s) && (s.dispatcher.Skipping? ==> ContextDone(s)) && c.blockError
               && ContextDone(s) && Enabled(c, s, a)
    ensures var t := Step(c, s, a);
            && Sum(t.phases, LAUNCHED) + Pending(t) == Sum(s.phases, LAUNCHED) + Pending(s)
            && ContextDone(t) && |t.phases| == |s.phases|
            && forall j :: 0 <= j < c.jobs && PassedOver(s, j) ==> PassedOver(t, j)
  {
    SumAfter(c, s, a, LAUNCHED);
    hide Sum;
  }

  /** Once the context of a block-error run is done, only a job whose token was already being
      awaited can still be launched; the other unreached jobs stay unreached or are skipped. */
  lemma {:induction false} NoLaunchAfterCancel(c: Config, s: State, actions: seq<Action>)
    requires Inv(c, s) && c.blockError && ContextDone(s) && Legal(c, s, actions)
    ensures var t := After(c, s, actions);
            && Sum(t.phases, LAUNCHED) + Pending(t) == Sum(s.phases, LAUNCHED) + Pending(s)
            && |t.phases| == |s.phases|
            && forall j :: 0 <= j < c.jobs && PassedOver(s, j) ==> PassedOver(t, j)
    decreases |actions|
  {
    if actions != [] {
      var a := actions[0];
      CancelledStep(c, s, a);
      StepKeepsInv(c, s, a);
      NoLaunchAfterCancel(c, Step(c, s, a), actions[1..]);
    }
  }

  /** In a block-error run whose context is done, every job passed over is recorded as not executed
      by the time the run is over. */
  lemma PassedOverIsSkipped(c: Config, s: State, actions: seq<Action>, j: nat)
    requires Inv(c, s) && c.blockError && ContextDone(s) && Legal(c, s, actions)
    requires After(c, s, actions).dispatcher.Over? && j < c.jobs && PassedOver(s, j)
    ensures var log := After(c, s, actions).log;
            exists k :: 0 <= k < |log| && log[k] == Entry(j, Response(Nil, Some(CanceledBeforeExecute), false))
  {
    NoLaunchAfterCancel(c, s, actions);
    ExecutionKeepsInv(c, s, actions);
    var t := After(c, s, actions);
    OverIsComplete(c, t);
    assert PassedOver(t, j) && t.phases[j].Skipped?;
    assert InLog(t.log, j);
    var k :| 0 <= k < |t.log| && t.log[k].job == j;
    assert t.log[k].resp == SKIPPED;
  }

  ghost predicate NoParentCancel(actions: seq<Action>) {
    forall k :: 0 <= k < |actions| ==> !actions[k].CancelParent?
  }

  lemma {:induction false} ParentStaysLive(c: Config, s: State, actions: seq<Action>)
    requires !s.parentDone && Legal(c, s, actions) && NoParentCancel(actions)
    ensures !After(c, s, actions).parentDone
    decreases |actions|
  {
    if actions != [] {
      assert !actions[0].CancelParent?;
      ParentStaysLive(c, Step(c, s, actions[0]), actions[1..]);
    }
  }

  ghost predicate NoFailure(log: seq<Entry>) {
    forall k :: 0 <= k < |log| ==> !log[k].resp.Failed()
  }

  lemma CancelShowsInLog(c: Config, s: State)
    requires Inv(c, s)
    ensures s.ownCancel ==> !NoFailure(s.log)
  {
    if s.ownCancel {
      var j: nat :| 0 <= j < |s.phases| && FailedPhase(s.phases[j]);
      assert InLog(s.log, j);
      var k :| 0 <= k < |s.log| && s.log[k].job == j;
      assert s.log[k].resp.Failed();
    }
  }

  /** If the caller never cancels and no failure is recorded, no job was skipped: a run without
      failures executed everything, and everything succeeded. */
  lemma NoFailureMeansAllSucceeded(c: Config, actions: seq<Action>)
    requires Legal(c, Init(c), actions) && NoParentCancel(actions)
    requires var s := After(c, Init(c), actions); s.dispatcher.Over? && NoFailure(s.log)
    ensures var log := After(c, Init(c), actions).log;
            forall k :: 0 <= k < |log| ==> log[k].resp.Succeeded()
  {
    InitInv(c);
    ExecutionKeepsInv(c, Init(c), actions);
    ParentStaysLive(c, Init(c), actions);
    var s := After(c, Init(c), actions);
    CancelShowsInLog(c, s);
    OverIsComplete(c, s);
  }

  /** Without block-error nothing is ever skipped, whatever is cancelled or fails. */
  lemma NoBlockErrorExecutesAll(c: Config, actions: seq<Action>)
    requires !c.blockError && Legal(c, Init(c), actions)
    ensures var log := After(c, Init(c), actions).log;
            forall k :: 0 <= k < |log| ==> log[k].resp.isExecute
  {
    InitInv(c);
    ExecutionKeepsInv(c, Init(c), actions);
  }

  // -------------------------------------------------------- what jobs returned

  /** Executions in which job j, whenever it returns, returns answers[j]. */
  ghost predicate Answers(actions: seq<Action>, answers: seq<Response>) {
    forall k :: 0 <= k < |actions| && actions[k].Return? ==>
      actions[k].job < |answers| && actions[k].resp == answers[actions[k].job]
  }

  ghost predicate AnsweredAs(s: State, answers: seq<Response>) {
    forall j :: 0 <= j < |s.phases| && s.phases[j].Answered() ==> j < |answers| && s.phases[j].resp == answers[j]
  }

  lemma {:induction false} AnswersReachPhases(c: Config, s: State, actions: seq<Action>, answers: seq<Response>)
    requires Legal(c, s, actions) && Answers(actions, answers) && AnsweredAs(s, answers)
    ensures AnsweredAs(After(c, s, actions), answers)
    decreases |actions|
  {
    if actions != [] {
      var a := actions[0];
      assert a.Return? ==> a.job < |answers| && a.resp == answers[a.job];
      AnswersReachPhases(c, Step(c, s, a), actions[1..], answers);
    }
  }

  /** What is logged for an executed job is what the job returned. */
  lemma LogHoldsAnswers(c: Config, actions: seq<Action>, answers: seq<Response>)
    requires Legal(c, Init(c), actions) && Answers(actions, answers)
    ensures var log := After(c, Init(c), actions).log;
            forall k :: 0 <= k < |log| && log[k].resp.isExecute ==>
              log[k].job < |answers| && log[k].resp == answers[log[k].job]
  {
    InitInv(c);
    ExecutionKeepsInv(c, Init(c), actions);
    AnswersReachPhases(c, Init(c), actions, answers);
  }
}
