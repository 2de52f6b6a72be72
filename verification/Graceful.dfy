/** The shutdown queue of v2/gracefulw/graceful.go: Register calls and any number of Execute
    calls, interleaved at the points where the mutex, the wait group and the channels let them. */
module Graceful {
  import opened Chunks

  datatype Task = Task(name: string, cleanup: nat)

  datatype Outcome = Busy | ThroughDone | ThroughTimeout

  /** One Execute call, from the moment it has swapped the queue for nil. */
  datatype Shutdown = Shutdown(
    taken: seq<Task>,
    launched: nat,           // tasks started so far, in order
    counter: nat,            // the wait group
    finished: set<nat>,      // numbers of the tasks whose cleanup returned
    closed: bool,            // the done channel
    outcome: Outcome)

  datatype State = State(
    queue: seq<Task>,
    shutdowns: seq<Shutdown>,
    started: seq<Task>,      // every cleanup started, in order of starting
    registered: seq<Task>)   // every task ever registered, in order

  datatype Action =
    | Register(task: Task)
    | Take                               // an Execute locks, copies and clears the queue
    | Launch(e: nat)
    | Finish(e: nat, k: nat)
    | Close(e: nat)                      // wg.Wait returned
    | ReturnDone(e: nat)
    | ReturnTimeout(e: nat)

  function Init(): State { State([], [], [], []) }

  predicate EnabledIn(x: Shutdown, a: Action)
    requires !a.Register? && !a.Take?
  {
    match a
    case Launch(_) => x.launched < |x.taken|
    case Finish(_, k) => k < x.launched && k !in x.finished && x.counter > 0
    case Close(_) => x.launched == |x.taken| && x.counter == 0 && !x.closed
    case ReturnDone(_) => x.launched == |x.taken| && x.closed && x.outcome == Busy
    case ReturnTimeout(_) => x.launched == |x.taken| && x.outcome == Busy
  }

  predicate Enabled(s: State, a: Action) {
    a.Register? || a.Take? || (a.e < |s.shutdowns| && EnabledIn(s.shutdowns[a.e], a))
  }

  function StepIn(x: Shutdown, a: Action): Shutdown
    requires !a.Register? && !a.Take? && EnabledIn(x, a)
  {
    match a
    case Launch(_) => x.(launched := x.launched + 1, counter := x.counter + 1)
    case Finish(_, k) => x.(finished := x.finished + {k}, counter := x.counter - 1)
    case Close(_) => x.(closed := true)
    case ReturnDone(_) => x.(outcome := ThroughDone)
    case ReturnTimeout(_) => x.(outcome := ThroughTimeout)
  }

  function Step(s: State, a: Action): State
    requires Enabled(s, a)
  {
    match a
    case Register(task) => s.(queue := s.queue + [task], registered := s.registered + [task])
    case Take => s.(queue := [], shutdowns := s.shutdowns + [Shutdown(s.queue, 0, 0, {}, false, Busy)])
    case Launch(e) =>
      var x := s.shutdowns[e];
      s.(shutdowns := s.shutdowns[e := StepIn(x, a)], started := s.started + [x.taken[x.launched]])
    case _ => s.(shutdowns := s.shutdowns[a.e := StepIn(s.shutdowns[a.e], a)])
  }

  ghost predicate Legal(s: State, actions: seq<Action>)
    decreases |actions|
  {
    actions != [] ==> Enabled(s, actions[0]) && Legal(Step(s, actions[0]), actions[1..])
  }

  ghost function After(s: State, actions: seq<Action>): State
    requires Legal(s, actions)
    decreases |actions|
  {
    if actions == [] then s else After(Step(s, actions[0]), actions[1..])
  }

  // ---------------------------------------------------------------- invariant

  function Takes(xs: seq<Shutdown>): seq<seq<Task>> { seq(|xs|, i requires 0 <= i < |xs| => xs[i].taken) }

  /** The tasks a list of Executes has started, and those it has yet to start. */
  function Launched(xs: seq<Shutdown>): multiset<Task>
    requires forall x :: x in xs ==> x.launched <= |x.taken|
  {
    if xs == [] then multiset{} else multiset(xs[0].taken[..xs[0].launched]) + Launched(xs[1..])
  }

  function Pending(xs: seq<Shutdown>): multiset<Task>
    requires forall x :: x in xs ==> x.launched <= |x.taken|
  {
    if xs == [] then multiset{} else multiset(xs[0].taken[xs[0].launched..]) + Pending(xs[1..])
  }

  predicate Sound(x: Shutdown) {
    && x.launched <= |x.taken|
    && (forall k :: k in x.finished ==> k < x.launched)
    && x.counter + |x.finished| == x.launched
    && (x.closed ==> x.launched == |x.taken| && x.counter == 0)
    && (x.outcome == ThroughDone ==> x.closed)
  }

  ghost predicate Inv(s: State) {
    && (forall x :: x in s.shutdowns ==> Sound(x))
    && Flatten(Takes(s.shutdowns)) + s.queue == s.registered
    && multiset(s.started) == Launched(s.shutdowns)
  }

  lemma {:induction false} FlattenAppend<T>(parts: seq<seq<T>>, last: seq<T>)
    ensures Flatten(parts + [last]) == Flatten(parts) + last
  {
    if parts == [] {
      assert [last][1..] == [];
    } else {
      assert (parts + [last])[1..] == parts[1..] + [last];
      FlattenAppend(parts[1..], last);
    }
  }

  lemma {:induction false} LaunchedAppend(xs: seq<Shutdown>, x: Shutdown)
    requires forall y :: y in xs + [x] ==> y.launched <= |y.taken|
    requires x.launched == 0
    ensures forall y :: y in xs ==> y.launched <= |y.taken|
    ensures Launched(xs + [x]) == Launched(xs)
  {
    assert forall y :: y in xs ==> y in xs + [x];
    if xs == [] {
      assert [x][1..] == [];
    } else {
      assert (xs + [x])[1..] == xs[1..] + [x];
      LaunchedAppend(xs[1..], x);
    }
  }

  /** Changing one Execute adds to the started tasks what it adds to its own. */
  lemma {:induction false} LaunchedUpdate(xs: seq<Shutdown>, e: nat, y: Shutdown)
    requires e < |xs| && forall x :: x in xs ==> x.launched <= |x.taken|
    requires y.taken == xs[e].taken && xs[e].launched <= y.launched <= |y.taken|
    ensures forall x :: x in xs[e := y] ==> x.launched <= |x.taken|
    ensures Launched(xs[e := y]) == Launched(xs) + multiset(y.taken[xs[e].launched..y.launched])
  {
    var x := xs[e];
    var zs := xs[e := y];
    assert forall z :: z in zs ==> z == y || z in xs;
    if e == 0 {
      assert zs[1..] == xs[1..];
      assert y.taken[..y.launched] == x.taken[..x.launched] + y.taken[x.launched..y.launched];
    } else {
      assert zs[1..] == xs[1..][e - 1 := y];
      LaunchedUpdate(xs[1..], e - 1, y);
    }
  }

  lemma StepKeepsSound(x: Shutdown, a: Action)
    requires Sound(x) && !a.Register? && !a.Take? && EnabledIn(x, a)
    ensures Sound(StepIn(x, a)) && StepIn(x, a).taken == x.taken
  {}

  lemma TakeKeepsInv(s: State)
    requires Inv(s)
    ensures Inv(Step(s, Take))
  {
    hide Flatten;
    var x := Shutdown(s.queue, 0, 0, {}, false, Busy);
    assert Takes(s.shutdowns + [x]) == Takes(s.shutdowns) + [s.queue];
    FlattenAppend(Takes(s.shutdowns), s.queue);
    LaunchedAppend(s.shutdowns, x);
  }

  lemma SameTakes(xs: seq<Shutdown>, e: nat, y: Shutdown)
    requires e < |xs| && y.taken == xs[e].taken
    ensures Takes(xs[e := y]) == Takes(xs)
  {}

  lemma InnerStepKeepsInv(s: State, a: Action)
    requires Inv(s) && Enabled(s, a) && !a.Register? && !a.Take?
    ensures Inv(Step(s, a))
  {
    hide Flatten, Launched;
    var t := Step(s, a);
    var x := s.shutdowns[a.e];
    assert Sound(x);
    var y := StepIn(x, a);
    StepKeepsSound(x, a);
    assert t.shutdowns == s.shutdowns[a.e := y];
    assert forall z :: z in t.shutdowns ==> z == y || z in s.shutdowns;
    assert forall z :: z in t.shutdowns ==> Sound(z);
    SameTakes(s.shutdowns, a.e, y);
    LaunchedUpdate(s.shutdowns, a.e, y);
    assert a.Launch? ==> y.taken[x.launched..y.launched] == [x.taken[x.launched]];
    hide Sound, StepIn, EnabledIn, Takes;
  }

  lemma StepKeepsInv(s: State, a: Action)
    requires Inv(s) && Enabled(s, a)
    ensures Inv(Step(s, a))
  {
    hide Flatten, Launched;
    if a.Register? {
      assert Flatten(Takes(s.shutdowns)) + (s.queue + [a.task]) == s.registered + [a.task];
    } else if a.Take? {
      TakeKeepsInv(s);
    } else {
      InnerStepKeepsInv(s, a);
    }
  }

  lemma {:induction false} RunKeepsInv(s: State, actions: seq<Action>)
    requires Inv(s) && Legal(s, actions)
    ensures Inv(After(s, actions))
    decreases |actions|
  {
    if actions != [] {
      StepKeepsInv(s, actions[0]);
      RunKeepsInv(Step(s, actions[0]), actions[1..]);
    }
  }

  /** The tasks of the Register calls of a run, in order. */
  function RegisterCalls(actions: seq<Action>): seq<Task> {
    if actions == [] then []
    else (if actions[0].Register? then [actions[0].task] else []) + RegisterCalls(actions[1..])
  }

  /** Every Register call is kept, in the order of the calls. */
  lemma {:induction false} RegisteredAre(s: State, actions: seq<Action>)
    requires Legal(s, actions)
    ensures After(s, actions).registered == s.registered + RegisterCalls(actions)
    decreases |actions|
  {
    if actions != [] {
      RegisteredAre(Step(s, actions[0]), actions[1..]);
    }
  }

  lemma {:induction false} TakesSplit(xs: seq<Shutdown>)
    requires forall x :: x in xs ==> x.launched <= |x.taken|
    ensures multiset(Flatten(Takes(xs))) == Launched(xs) + Pending(xs)
  {
    if xs != [] {
      TakesSplit(xs[1..]);
      assert Takes(xs)[1..] == Takes(xs[1..]) && Takes(xs)[0] == xs[0].taken;
      var taken, n := xs[0].taken, xs[0].launched;
      assert taken == taken[..n] + taken[n..];
      assert multiset(taken) == multiset(taken[..n]) + multiset(taken[n..]);
      assert Flatten(Takes(xs)) == taken + Flatten(Takes(xs[1..]));
      hide Takes, Flatten;
    }
  }

  // ----------------------------------------------------------------- theorems

  predicate AllLaunched(s: State) { forall x :: x in s.shutdowns ==> x.launched == |x.taken| }

  lemma {:induction false} NothingPending(xs: seq<Shutdown>)
    requires forall x :: x in xs ==> x.launched == |x.taken|
    ensures Pending(xs) == multiset{}
  {
    if xs != [] {
      NothingPending(xs[1..]);
      assert xs[0].taken[xs[0].launched..] == [];
    }
  }

  /** However Register and Execute calls interleave, the Executes take the registered tasks in
      order and without overlap, the rest is queued; every task is queued, held back by exactly
      one Execute, or started exactly once, and held back by none once all Executes have
      launched what they took. */
  lemma HandOff(actions: seq<Action>)
    requires Legal(Init(), actions)
    ensures var s := After(Init(), actions);
            && s.registered == RegisterCalls(actions)
            && s.registered == Flatten(Takes(s.shutdowns)) + s.queue
            && (forall x :: x in s.shutdowns ==> x.launched <= |x.taken|)
            && multiset(s.registered) == multiset(s.started) + Pending(s.shutdowns) + multiset(s.queue)
            && (AllLaunched(s) ==> multiset(s.registered) == multiset(s.started) + multiset(s.queue))
  {
    RunKeepsInv(Init(), actions);
    RegisteredAre(Init(), actions);
    var s := After(Init(), actions);
    TakesSplit(s.shutdowns);
    if AllLaunched(s) {
      NothingPending(s.shutdowns);
    }
  }

  lemma {:induction false} FullSet(n: nat, s: set<nat>)
    requires forall k :: k in s ==> k < n
    ensures |s| <= n
    ensures |s| == n <==> forall k :: 0 <= k < n ==> k in s
  {
    if n > 0 {
      var rest := s - {n - 1};
      FullSet(n - 1, rest);
      assert n - 1 in s ==> s == rest + {n - 1};
      assert n - 1 !in s ==> s == rest;
    }
  }

  /** An Execute that returned through done has seen every cleanup it took return. */
  lemma DoneMeansFinished(actions: seq<Action>, e: nat)
    requires Legal(Init(), actions)
    ensures var s := After(Init(), actions);
            e < |s.shutdowns| && s.shutdowns[e].outcome == ThroughDone
            ==> forall k :: 0 <= k < |s.shutdowns[e].taken| ==> k in s.shutdowns[e].finished
  {
    RunKeepsInv(Init(), actions);
    var s := After(Init(), actions);
    if e < |s.shutdowns| && s.shutdowns[e].outcome == ThroughDone {
      var x := s.shutdowns[e];
      assert Sound(x);
      FullSet(x.launched, x.finished);
    }
  }

  /** While some Execute has not returned, something other than its time-out can happen. */
  lemma NeverStuck(actions: seq<Action>, e: nat)
    requires Legal(Init(), actions)
    ensures var s := After(Init(), actions);
            e < |s.shutdowns| && s.shutdowns[e].outcome == Busy
            ==> exists a: Action :: !a.Register? && !a.Take? && !a.ReturnTimeout? && a.e == e && Enabled(s, a)
  {
    RunKeepsInv(Init(), actions);
    var s := After(Init(), actions);
    if e < |s.shutdowns| && s.shutdowns[e].outcome == Busy {
      var x := s.shutdowns[e];
      assert Sound(x);
      FullSet(x.launched, x.finished);
      if x.launched < |x.taken| {
        assert Enabled(s, Launch(e));
      } else if x.counter > 0 {
        var k: nat :| k < x.launched && k !in x.finished;
        assert Enabled(s, Finish(e, k));
      } else if !x.closed {
        assert Enabled(s, Close(e));
      } else {
        assert Enabled(s, ReturnDone(e));
      }
    }
  }

  /** What one Execute still has to do. */
  function WorkOf(x: Shutdown): int {
    2 * (|x.taken| - x.launched) + x.counter + (if x.closed then 0 else 1) + (if x.outcome == Busy then 1 else 0)
  }

  function Work(xs: seq<Shutdown>): int { if xs == [] then 0 else WorkOf(xs[0]) + Work(xs[1..]) }

  lemma {:induction false} WorkUpdate(xs: seq<Shutdown>, e: nat, y: Shutdown)
    requires e < |xs|
    ensures Work(xs[e := y]) == Work(xs) - WorkOf(xs[e]) + WorkOf(y)
  {
    if e == 0 {
      assert xs[e := y][1..] == xs[1..];
    } else {
      assert xs[e := y][1..] == xs[1..][e - 1 := y];
      WorkUpdate(xs[1..], e - 1, y);
    }
  }

  lemma {:induction false} WorkNonNegative(xs: seq<Shutdown>)
    requires forall x :: x in xs ==> Sound(x)
    ensures Work(xs) >= 0
  {
    if xs != [] {
      assert Sound(xs[0]);
      WorkNonNegative(xs[1..]);
    }
  }

  ghost predicate NoNewWork(actions: seq<Action>) {
    forall i :: 0 <= i < |actions| ==> !actions[i].Register? && !actions[i].Take?
  }

  /** Without new registrations and Executes, a run takes at most two steps a task and two an
      Execute: every Execute comes to its return if the cleanups do. */
  lemma {:induction false} RunsAreBounded(s: State, actions: seq<Action>)
    requires Inv(s) && Legal(s, actions) && NoNewWork(actions)
    ensures |actions| <= Work(s.shutdowns)
    decreases |actions|
  {
    WorkNonNegative(s.shutdowns);
    if actions != [] {
      var a := actions[0];
      assert !a.Register? && !a.Take?;
      StepKeepsInv(s, a);
      assert NoNewWork(actions[1..]);
      RunsAreBounded(Step(s, a), actions[1..]);
      WorkUpdate(s.shutdowns, a.e, StepIn(s.shutdowns[a.e], a));
    }
  }

  // --------------------------------------------------------------- the object

  /** The package variable and the two calls that touch it; `now` is the state of the system. */
  class Graceful {
    var tasks: seq<Task>

    constructor ()
      ensures tasks == Init().queue
    {
      tasks := [];
    }

    method Register(task: Task, ghost now: State) returns (ghost after: State)
      requires tasks == now.queue
      modifies this
      ensures tasks == old(tasks) + [task]
      ensures after == Step(now, Action.Register(task)) && tasks == after.queue
    {
      tasks := tasks + [task];
      after := Step(now, Action.Register(task));
    }

    /** An Execute up to its wait, when nothing else runs between: it takes the whole queue and
        starts every task in it. */
    method Execute(ghost now: State) returns (launched: seq<Task>, ghost after: State)
      requires tasks == now.queue && Inv(now)
      modifies this
      ensures launched == old(tasks) && tasks == after.queue == []
      ensures after.started == now.started + launched && after.registered == now.registered
      ensures |after.shutdowns| == |now.shutdowns| + 1 && after.shutdowns[..|now.shutdowns|] == now.shutdowns
      ensures after.shutdowns[|now.shutdowns|] == Shutdown(launched, |launched|, |launched|, {}, false, Busy)
      ensures Legal(now, [Take] + seq(|launched|, _ => Launch(|now.shutdowns|)))
      ensures after == After(now, [Take] + seq(|launched|, _ => Launch(|now.shutdowns|)))
    {
      ghost var e := |now.shutdowns|;
      var registeredTasks := tasks;
      tasks := [];
      after := Step(now, Take);
      ghost var actions := [Take];
      StepLegal(now, [], Take);
      launched := [];
      for i := 0 to |registeredTasks|
        invariant launched == registeredTasks[..i]
        invariant tasks == after.queue == [] && after.registered == now.registered
        invariant after.started == now.started + launched
        invariant |after.shutdowns| == e + 1 && after.shutdowns[..e] == now.shutdowns
        invariant after.shutdowns[e] == Shutdown(registeredTasks, i, i, {}, false, Busy)
        invariant actions == [Take] + seq(i, _ => Launch(e))
        invariant Legal(now, actions) && After(now, actions) == after
      {
        StepLegal(now, actions, Launch(e));
        after := Step(after, Launch(e));
        actions := actions + [Launch(e)];
        launched := launched + [registeredTasks[i]];
      }
    }
  }

  lemma {:induction false} StepLegal(s: State, actions: seq<Action>, a: Action)
    requires Legal(s, actions) && Enabled(After(s, actions), a)
    ensures Legal(s, actions + [a]) && After(s, actions + [a]) == Step(After(s, actions), a)
    decreases |actions|
  {
    if actions == [] {
      assert [a][1..] == [];
    } else {
      assert (actions + [a])[1..] == actions[1..] + [a];
      StepLegal(Step(s, actions[0]), actions[1..], a);
    }
  }
}
