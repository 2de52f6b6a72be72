/** The rule engine of v2/statemachinew/fsm.go: rules as values and what firing them does, all
    sequences of configuration and fire calls, and the objects with their shared rule pointers. */
module StateMachine {
  import opened Text

  type Event = string
  type StateName = string

  /** A hook acts on the entity and may fail. */
  datatype Outcome<E> = Outcome(entity: E, err: Option<int>)
  datatype Hook<!E> = Hook(name: string, act: E -> Outcome<E>)

  datatype RuleVal<!E> = RuleVal(
    fromStates: set<StateName>, toState: StateName,
    guards: seq<Hook<E>>, preHooks: seq<Hook<E>>, postHooks: seq<Hook<E>>)

  datatype FireError =
    | UnknownEvent
    | InvalidTransition
    | Aborted(cause: int)
    | PreFailed(cause: int)
    | PostFailed(cause: int)

  datatype Fired<!E> = Fired(state: StateName, err: Option<FireError>, entity: E, called: seq<Hook<E>>)

  // ------------------------------------------------------------ running hooks

  /** Hooks run in order on the entity until one fails. */
  function RunHooks<E>(hooks: seq<Hook<E>>, entity: E): (r: (E, nat, Option<int>))
    ensures r.1 <= |hooks|
  {
    if hooks == [] then (entity, 0, None)
    else
      var o := hooks[0].act(entity);
      if o.err.Some? then (o.entity, 1, o.err)
      else
        var r := RunHooks(hooks[1..], o.entity);
        (r.0, r.1 + 1, r.2)
  }

  /** The entity after all of some hooks have acted on it. */
  function ActAll<E>(hooks: seq<Hook<E>>, entity: E): E {
    if hooks == [] then entity else ActAll(hooks[1..], hooks[0].act(entity).entity)
  }

  /** Number n of a hook list is the first to fail, when started on an entity. */
  ghost predicate FirstFailure<E>(hooks: seq<Hook<E>>, entity: E, n: nat)
    requires n < |hooks|
  {
    && hooks[n].act(ActAll(hooks[..n], entity)).err.Some?
    && forall i :: 0 <= i < n ==> hooks[i].act(ActAll(hooks[..i], entity)).err.None?
  }

  ghost predicate NoFailure<E>(hooks: seq<Hook<E>>, entity: E) {
    forall i :: 0 <= i < |hooks| ==> hooks[i].act(ActAll(hooks[..i], entity)).err.None?
  }

  lemma {:induction false} ActAllTail<E>(hooks: seq<Hook<E>>, entity: E, n: nat)
    requires 0 < n <= |hooks|
    ensures ActAll(hooks[..n], entity) == ActAll(hooks[1..][..n - 1], hooks[0].act(entity).entity)
  {
    assert hooks[..n][1..] == hooks[1..][..n - 1];
  }

  /** RunHooks calls the hooks up to and including the first that fails, or all of them, and
      leaves what those calls make of the entity. */
  lemma {:induction false} RunHooksStopsAtFailure<E>(hooks: seq<Hook<E>>, entity: E)
    ensures var (after, n, err) := RunHooks(hooks, entity);
            && after == ActAll(hooks[..n], entity)
            && (err.None? ==> n == |hooks| && NoFailure(hooks, entity))
            && (err.Some? ==> n > 0 && FirstFailure(hooks, entity, n - 1))
            && (err.Some? ==> err == hooks[n - 1].act(ActAll(hooks[..n - 1], entity)).err)
  {
    if hooks == [] {
    } else {
      assert ActAll(hooks[..0], entity) == entity;
      var o := hooks[0].act(entity);
      if o.err.Some? {
        ActAllTail(hooks, entity, 1);
      } else {
        RunHooksStopsAtFailure(hooks[1..], o.entity);
        var n := RunHooks(hooks, entity).1;
        forall i | 0 < i <= n ensures ActAll(hooks[..i], entity) == ActAll(hooks[1..][..i - 1], o.entity) {
          ActAllTail(hooks, entity, i);
        }
        assert forall i :: 0 < i < |hooks| ==> hooks[i] == hooks[1..][i - 1];
      }
    }
  }

  // ------------------------------------------------------------------- firing

  function FireRule<E>(rule: RuleVal<E>, current: StateName, entity: E): Fired<E> {
    if current !in rule.fromStates then Fired(current, Some(InvalidTransition), entity, [])
    else
      var g := RunHooks(rule.guards, entity);
      if g.2.Some? then Fired(current, Some(Aborted(g.2.value)), g.0, rule.guards[..g.1])
      else
        var p := RunHooks(rule.preHooks, g.0);
        if p.2.Some? then Fired(current, Some(PreFailed(p.2.value)), p.0, rule.guards + rule.preHooks[..p.1])
        else
          var q := RunHooks(rule.postHooks, p.0);
          Fired(rule.toState, if q.2.Some? then Some(PostFailed(q.2.value)) else None, q.0,
                rule.guards + rule.preHooks + rule.postHooks[..q.1])
  }

  function AllHooks<E>(rule: RuleVal<E>): seq<Hook<E>> { rule.guards + rule.preHooks + rule.postHooks }

  lemma {:induction false} ActAllConcat<E>(a: seq<Hook<E>>, b: seq<Hook<E>>, entity: E)
    ensures ActAll(a + b, entity) == ActAll(b, ActAll(a, entity))
  {
    if a == [] {
      assert a + b == b;
    } else {
      assert (a + b)[1..] == a[1..] + b;
      ActAllConcat(a[1..], b, a[0].act(entity).entity);
    }
  }

  lemma ConcatSlices<E>(a: seq<Hook<E>>, b: seq<Hook<E>>, entity: E)
    ensures forall i :: 0 <= i < |a| ==> (a + b)[i] == a[i] && (a + b)[..i] == a[..i]
    ensures forall i :: 0 <= i < |b| ==>
              (a + b)[|a| + i] == b[i] && ActAll((a + b)[..|a| + i], entity) == ActAll(b[..i], ActAll(a, entity))
  {
    forall i | 0 <= i < |b|
      ensures (a + b)[|a| + i] == b[i] && ActAll((a + b)[..|a| + i], entity) == ActAll(b[..i], ActAll(a, entity))
    {
      assert (a + b)[..|a| + i] == a + b[..i];
      ActAllConcat(a, b[..i], entity);
    }
  }

  /** The first failure of two lists run one after the other. */
  lemma FirstFailureConcat<E>(a: seq<Hook<E>>, b: seq<Hook<E>>, entity: E, n: nat)
    ensures n < |a| && FirstFailure(a, entity, n) ==> FirstFailure(a + b, entity, n)
    ensures n < |b| && NoFailure(a, entity) && FirstFailure(b, ActAll(a, entity), n) ==>
              FirstFailure(a + b, entity, |a| + n)
  {
    hide ActAll;
    var all := a + b;
    ConcatSlices(a, b, entity);
    if n < |b| && NoFailure(a, entity) && FirstFailure(b, ActAll(a, entity), n) {
      forall i | 0 <= i < |a| + n ensures all[i].act(ActAll(all[..i], entity)).err.None? {
        if i >= |a| {
          assert all[|a| + (i - |a|)] == b[i - |a|];
        }
      }
    }
  }

  /** Where a fire stopped: with everything run, or at the first failing hook of guards, pre- and
      post-hooks, whose list and error the returned error names. */
  ghost predicate Stopped<E>(rule: RuleVal<E>, entity: E, called: seq<Hook<E>>, err: Option<FireError>) {
    var all, n := AllHooks(rule), |called| - 1;
    match err
    case None => called == all && NoFailure(all, entity)
    case Some(UnknownEvent) => false
    case Some(InvalidTransition) => called == []
    case Some(failure) =>
      && 0 <= n < |all| && called == all[..n + 1]
      && FirstFailure(all, entity, n)
      && var cause := all[n].act(ActAll(all[..n], entity)).err.value;
         failure == if n < |rule.guards| then Aborted(cause)
                    else if n < |rule.guards| + |rule.preHooks| then PreFailed(cause)
                    else PostFailed(cause)
  }

  lemma StoppedInGuards<E>(rule: RuleVal<E>, entity: E)
    ensures var g := RunHooks(rule.guards, entity);
            g.2.Some? ==> Stopped(rule, entity, rule.guards[..g.1], Some(Aborted(g.2.value)))
  {
    hide RunHooks, ActAll;
    RunHooksStopsAtFailure(rule.guards, entity);
    var g := RunHooks(rule.guards, entity);
    if g.2.Some? {
      var rest := rule.preHooks + rule.postHooks;
      assert AllHooks(rule) == rule.guards + rest;
      FirstFailureConcat(rule.guards, rest, entity, g.1 - 1);
      ConcatSlices(rule.guards, rest, entity);
    }
  }

  /** The same for a later list, after the lists before it have passed. */
  lemma StoppedLater<E>(before: seq<Hook<E>>, hooks: seq<Hook<E>>, entity: E)
    requires NoFailure(before, entity)
    ensures var all, r := before + hooks, RunHooks(hooks, ActAll(before, entity));
            r.2.Some? ==>
              var n := |before| + r.1 - 1;
              && |before| <= n < |all| && before + hooks[..r.1] == all[..n + 1]
              && FirstFailure(all, entity, n) && r.2 == all[n].act(ActAll(all[..n], entity)).err
  {
    hide RunHooks, ActAll, NoFailure;
    RunHooksStopsAtFailure(hooks, ActAll(before, entity));
    var r := RunHooks(hooks, ActAll(before, entity));
    if r.2.Some? {
      FirstFailureConcat(before, hooks, entity, r.1 - 1);
      ConcatSlices(before, hooks, entity);
      hide FirstFailure;
      assert (before + hooks)[|before| + (r.1 - 1)] == hooks[r.1 - 1];
      assert (before + hooks)[..|before| + r.1] == before + hooks[..r.1];
    }
  }

  lemma FailureExtends<E>(a: seq<Hook<E>>, after: seq<Hook<E>>, entity: E, n: nat)
    requires n < |a|
    ensures var all := a + after;
            && all[n] == a[n] && all[..n] == a[..n] && all[..n + 1] == a[..n + 1]
            && (FirstFailure(a, entity, n) ==> FirstFailure(all, entity, n))
  {
    hide FirstFailure, ActAll;
    FirstFailureConcat(a, after, entity, n);
    ConcatSlices(a, after, entity);
    assert (a + after)[..n + 1] == a[..n + 1];
  }

  lemma FireActs<E>(rule: RuleVal<E>, current: StateName, entity: E)
    ensures var f := FireRule(rule, current, entity); f.entity == ActAll(f.called, entity)
  {
    hide RunHooks, ActAll, FirstFailure, NoFailure;
    var guards, pre, post := rule.guards, rule.preHooks, rule.postHooks;
    EmptyActs(entity);
    var g := RunHooks(guards, entity);
    RunHooksStopsAtFailure(guards, entity);
    if g.2.None? {
      assert guards[..g.1] == guards;
      var p := RunHooks(pre, g.0);
      RunHooksStopsAtFailure(pre, g.0);
      ActAllConcat(guards, pre[..p.1], entity);
      if p.2.None? {
        assert pre[..p.1] == pre;
        var q := RunHooks(post, p.0);
        RunHooksStopsAtFailure(post, p.0);
        ActAllConcat(guards + pre, post[..q.1], entity);
      }
    }
  }

  lemma FireStops<E>(rule: RuleVal<E>, current: StateName, entity: E)
    ensures var f := FireRule(rule, current, entity); Stopped(rule, entity, f.called, f.err)
  {
    hide RunHooks, ActAll, FirstFailure, NoFailure;
    var guards, pre, post := rule.guards, rule.preHooks, rule.postHooks;
    var g := RunHooks(guards, entity);
    RunHooksStopsAtFailure(guards, entity);
    StoppedInGuards(rule, entity);
    if g.2.None? {
      assert guards[..g.1] == guards;
      var p := RunHooks(pre, g.0);
      RunHooksStopsAtFailure(pre, g.0);
      StoppedLater(guards, pre, entity);
      if p.2.Some? {
        FailureExtends(guards + pre, post, entity, |guards| + p.1 - 1);
      } else {
        assert pre[..p.1] == pre;
        ActAllConcat(guards, pre, entity);
        NoFailureSplit(guards, pre, entity);
        var q := RunHooks(post, p.0);
        RunHooksStopsAtFailure(post, p.0);
        StoppedLater(guards + pre, post, entity);
        NoFailureSplit(guards + pre, post, entity);
        assert q.2.None? ==> post[..q.1] == post;
      }
    }
  }

  /** Firing runs guards, pre-hooks and post-hooks in that order up to the first that fails, and the
      entity is what those hooks make of it. */
  lemma HooksRunInOrder<E>(rule: RuleVal<E>, current: StateName, entity: E)
    ensures var f := FireRule(rule, current, entity);
            && f.called <= AllHooks(rule)
            && f.entity == ActAll(f.called, entity)
            && (f.err == Some(InvalidTransition) <==> current !in rule.fromStates)
            && Stopped(rule, entity, f.called, f.err)
  {
    FireActs(rule, current, entity);
    FireStops(rule, current, entity);
    hide RunHooks, ActAll, FirstFailure, NoFailure;
  }

  lemma EmptyActs<E>(entity: E)
    ensures ActAll<E>([], entity) == entity
  {}

  /** The returned state is the new one exactly when the transition is registered for the current
      state and every guard and pre-hook lets it pass; a failing post-hook does not take it back. */
  lemma StateChangesExactly<E>(rule: RuleVal<E>, current: StateName, entity: E)
    ensures FireRule(rule, current, entity).state
            == if current in rule.fromStates && NoFailure(rule.guards + rule.preHooks, entity) then rule.toState
               else current
  {
    hide NoFailure;
    if current in rule.fromStates {
      RunHooksStopsAtFailure(rule.guards, entity);
      var g := RunHooks(rule.guards, entity);
      NoFailureSplit(rule.guards, rule.preHooks, entity);
      if g.2.None? {
        assert rule.guards[..g.1] == rule.guards;
        RunHooksStopsAtFailure(rule.preHooks, g.0);
        FailureIsNoPass(rule.preHooks, g.0);
      } else {
        FailureIsNoPass(rule.guards, entity);
      }
    }
  }

  lemma FailureIsNoPass<E>(hooks: seq<Hook<E>>, entity: E)
    ensures RunHooks(hooks, entity).2.Some? ==> !NoFailure(hooks, entity)
  {
    hide RunHooks, ActAll;
    RunHooksStopsAtFailure(hooks, entity);
  }

  lemma NoFailureSplit<E>(a: seq<Hook<E>>, b: seq<Hook<E>>, entity: E)
    ensures NoFailure(a + b, entity) <==> NoFailure(a, entity) && NoFailure(b, ActAll(a, entity))
  {
    var all := a + b;
    ConcatSlices(a, b, entity);
    if NoFailure(all, entity) {
      forall i | 0 <= i < |b| ensures b[i].act(ActAll(b[..i], ActAll(a, entity))).err.None? {
        assert all[|a| + i].act(ActAll(all[..|a| + i], entity)).err.None?;
      }
      forall i | 0 <= i < |a| ensures a[i].act(ActAll(a[..i], entity)).err.None? {
        assert all[i].act(ActAll(all[..i], entity)).err.None?;
      }
    }
    if NoFailure(a, entity) && NoFailure(b, ActAll(a, entity)) {
      forall i | 0 <= i < |all| ensures all[i].act(ActAll(all[..i], entity)).err.None? {
        if i >= |a| {
          assert all[|a| + (i - |a|)] == b[i - |a|];
        }
      }
    }
  }

  // ----------------------------------------- configuration and fire call sequences

  /** Every rule object ever made, by number, and the one each event uses now.  A builder is the
      number of the rule it was made with. */
  datatype Machine<!E> = Machine(heap: seq<RuleVal<E>>, rules: map<Event, nat>)

  datatype Call<!E> =
    | On(event: Event)
    | From(builder: nat, states: seq<StateName>)
    | To(builder: nat, state: StateName)
    | Guard(builder: nat, hooks: seq<Hook<E>>)
    | Pre(builder: nat, hooks: seq<Hook<E>>)
    | Post(builder: nat, hooks: seq<Hook<E>>)
    | Fire(event: Event)

  function Blank<E>(): RuleVal<E> { RuleVal({}, "", [], [], []) }

  predicate Usable<E>(m: Machine<E>, c: Call<E>) { c.On? || c.Fire? || c.builder < |m.heap| }

  function SetOf(states: seq<StateName>): set<StateName> { set s | s in states }

  function Configured<E>(rule: RuleVal<E>, c: Call<E>): RuleVal<E> {
    match c
    case From(_, states) => rule.(fromStates := rule.fromStates + SetOf(states))
    case To(_, state) => rule.(toState := state)
    case Guard(_, hooks) => rule.(guards := rule.guards + hooks)
    case Pre(_, hooks) => rule.(preHooks := rule.preHooks + hooks)
    case Post(_, hooks) => rule.(postHooks := rule.postHooks + hooks)
    case _ => rule
  }

  function Apply<E>(m: Machine<E>, c: Call<E>): Machine<E>
    requires Usable(m, c)
  {
    match c
    case On(event) => Machine(m.heap + [Blank()], m.rules[event := |m.heap|])
    case Fire(_) => m
    case _ => m.(heap := m.heap[c.builder := Configured(m.heap[c.builder], c)])
  }

  function FireNow<E>(m: Machine<E>, event: Event, current: StateName, entity: E): Fired<E>
    requires WellFormed(m)
  {
    if event in m.rules then FireRule(m.heap[m.rules[event]], current, entity)
    else Fired(current, Some(UnknownEvent), entity, [])
  }

  predicate WellFormed<E>(m: Machine<E>) { forall e :: e in m.rules ==> m.rules[e] < |m.heap| }

  /** Distinct events never share a rule object. */
  ghost predicate Disjoint<E>(m: Machine<E>) {
    forall e, f :: e in m.rules && f in m.rules && e != f ==> m.rules[e] != m.rules[f]
  }

  ghost predicate AllUsable<E>(m: Machine<E>, calls: seq<Call<E>>)
    decreases |calls|
  {
    calls != [] ==> Usable(m, calls[0]) && AllUsable(Apply(m, calls[0]), calls[1..])
  }

  ghost function ApplyAll<E>(m: Machine<E>, calls: seq<Call<E>>): Machine<E>
    requires AllUsable(m, calls)
    decreases |calls|
  {
    if calls == [] then m else ApplyAll(Apply(m, calls[0]), calls[1..])
  }

  lemma {:induction false} RulesStayDisjoint<E>(m: Machine<E>, calls: seq<Call<E>>)
    requires WellFormed(m) && Disjoint(m) && AllUsable(m, calls)
    ensures WellFormed(ApplyAll(m, calls)) && Disjoint(ApplyAll(m, calls))
    decreases |calls|
  {
    if calls != [] {
      RulesStayDisjoint(Apply(m, calls[0]), calls[1..]);
    }
  }

  /** A builder whose event was registered anew: no event uses its rule any more. */
  ghost predicate Replaced<E>(m: Machine<E>, b: nat) {
    b < |m.heap| && forall e :: e in m.rules ==> m.rules[e] != b
  }

  lemma OnReplaces<E>(m: Machine<E>, event: Event)
    requires WellFormed(m) && Disjoint(m) && event in m.rules
    ensures Replaced(Apply(m, On(event)), m.rules[event])
  {}

  /** Once replaced, a builder stays replaced. */
  lemma {:induction false} ReplacedForGood<E>(m: Machine<E>, b: nat, calls: seq<Call<E>>)
    requires WellFormed(m) && Replaced(m, b) && AllUsable(m, calls)
    ensures Replaced(ApplyAll(m, calls), b)
    ensures WellFormed(ApplyAll(m, calls))
    decreases |calls|
  {
    if calls != [] {
      ReplacedForGood(Apply(m, calls[0]), b, calls[1..]);
    }
  }

  predicate Through<E>(c: Call<E>, b: nat) { !c.On? && !c.Fire? && c.builder == b }

  /** The calls that are not made through one builder. */
  function Without<E>(calls: seq<Call<E>>, b: nat): seq<Call<E>> {
    if calls == [] then []
    else (if Through(calls[0], b) then [] else [calls[0]]) + Without(calls[1..], b)
  }

  /** Two machines that differ at most in one rule. */
  ghost predicate SameBut<E>(m: Machine<E>, k: Machine<E>, b: nat) {
    m.rules == k.rules && |m.heap| == |k.heap| && forall i :: 0 <= i < |m.heap| && i != b ==> m.heap[i] == k.heap[i]
  }

  lemma StepApart<E>(m: Machine<E>, k: Machine<E>, b: nat, c: Call<E>)
    requires WellFormed(m) && Replaced(m, b) && SameBut(m, k, b) && Usable(m, c)
    ensures WellFormed(Apply(m, c)) && Replaced(Apply(m, c), b) && Usable(k, c)
    ensures SameBut(Apply(m, c), if Through(c, b) then k else Apply(k, c), b)
  {
    hide Configured;
  }

  lemma {:induction false} RunApart<E>(m: Machine<E>, k: Machine<E>, b: nat, calls: seq<Call<E>>)
    requires WellFormed(m) && Replaced(m, b) && SameBut(m, k, b) && AllUsable(m, calls)
    ensures AllUsable(k, Without(calls, b))
    ensures SameBut(ApplyAll(m, calls), ApplyAll(k, Without(calls, b)), b)
    decreases |calls|
  {
    hide WellFormed, Replaced, SameBut, Apply, Usable, Through;
    if calls != [] {
      var c := calls[0];
      StepApart(m, k, b, c);
      if Through(c, b) {
        RunApart(Apply(m, c), k, b, calls[1..]);
        assert Without(calls, b) == Without(calls[1..], b);
      } else {
        RunApart(Apply(m, c), Apply(k, c), b, calls[1..]);
        assert Without(calls, b)[1..] == Without(calls[1..], b);
      }
    }
  }

  lemma FireApart<E>(m: Machine<E>, k: Machine<E>, b: nat, event: Event, current: StateName, entity: E)
    requires WellFormed(m) && Replaced(m, b) && SameBut(m, k, b)
    ensures WellFormed(k) && FireNow(k, event, current, entity) == FireNow(m, event, current, entity)
  {
    hide FireRule;
  }

  /** Calls through a replaced builder do not interfere: after any sequence of calls, every fire
      answers as if those made through the builder had been left out. */
  lemma ReplacedBuilderIsHarmless<E>(
    m: Machine<E>, b: nat, calls: seq<Call<E>>, event: Event, current: StateName, entity: E)
    requires WellFormed(m) && Replaced(m, b) && AllUsable(m, calls)
    ensures AllUsable(m, Without(calls, b))
    ensures WellFormed(ApplyAll(m, calls)) && WellFormed(ApplyAll(m, Without(calls, b)))
    ensures FireNow(ApplyAll(m, calls), event, current, entity)
            == FireNow(ApplyAll(m, Without(calls, b)), event, current, entity)
  {
    hide FireNow, AllUsable, ApplyAll, Without, Replaced, WellFormed;
    RunApart(m, m, b, calls);
    ReplacedForGood(m, b, calls);
    FireApart(ApplyAll(m, calls), ApplyAll(m, Without(calls, b)), b, event, current, entity);
  }

  // --------------------------------------------------- threading the state

  /** The states a caller sees who passes each returned state to the next fire. */
  ghost function Threaded<E>(m: Machine<E>, calls: seq<Call<E>>, current: StateName, entity: E): seq<StateName>
    requires WellFormed(m) && AllUsable(m, calls)
    decreases |calls|
  {
    if calls == [] then [current]
    else if calls[0].Fire? then
      var f := FireNow(m, calls[0].event, current, entity);
      [current] + Threaded(m, calls[1..], f.state, f.entity)
    else [current] + Threaded(Apply(m, calls[0]), calls[1..], current, entity)
  }

  /** A step along an edge registered for the event at that moment, or no step. */
  ghost predicate Edge<E>(m: Machine<E>, c: Call<E>, s: StateName, t: StateName)
    requires WellFormed(m)
  {
    s == t || (c.Fire? && c.event in m.rules
               && s in m.heap[m.rules[c.event]].fromStates && t == m.heap[m.rules[c.event]].toState)
  }

  lemma FireFollowsEdge<E>(m: Machine<E>, event: Event, current: StateName, entity: E)
    requires WellFormed(m)
    ensures Edge(m, Call.Fire(event), current, FireNow(m, event, current, entity).state)
  {}

  lemma {:induction false} AppliedPrefix<E>(m: Machine<E>, calls: seq<Call<E>>, n: nat)
    requires WellFormed(m) && AllUsable(m, calls) && n <= |calls|
    ensures AllUsable(m, calls[..n]) && WellFormed(ApplyAll(m, calls[..n]))
    decreases |calls|
  {
    if n > 0 {
      AppliedPrefix(Apply(m, calls[0]), calls[1..], n - 1);
      assert calls[..n][1..] == calls[1..][..n - 1];
    }
  }

  /** The state moves only along registered edges, over any sequence of calls. */
  lemma {:induction false} MovesAlongEdges<E>(m: Machine<E>, calls: seq<Call<E>>, current: StateName, entity: E, n: nat)
    requires WellFormed(m) && AllUsable(m, calls) && n < |calls|
    ensures |Threaded(m, calls, current, entity)| == |calls| + 1
    ensures AllUsable(m, calls[..n]) && WellFormed(ApplyAll(m, calls[..n]))
    ensures Edge(ApplyAll(m, calls[..n]), calls[n], Threaded(m, calls, current, entity)[n],
              Threaded(m, calls, current, entity)[n + 1])
    decreases |calls|
  {
    hide FireNow;
    AppliedPrefix(m, calls, n);
    ThreadedLength(m, calls, current, entity);
    var f := if calls[0].Fire? then FireNow(m, calls[0].event, current, entity) else Fired(current, None, entity, []);
    ThreadedStart(Apply(m, calls[0]), calls[1..], f.state, f.entity);
    if n == 0 {
      assert calls[..0] == [];
      if calls[0].Fire? {
        FireFollowsEdge(m, calls[0].event, current, entity);
      }
    } else {
      MovesAlongEdges(Apply(m, calls[0]), calls[1..], f.state, f.entity, n - 1);
      assert calls[..n][1..] == calls[1..][..n - 1];
    }
  }

  lemma {:induction false} ThreadedLength<E>(m: Machine<E>, calls: seq<Call<E>>, current: StateName, entity: E)
    requires WellFormed(m) && AllUsable(m, calls)
    ensures |Threaded(m, calls, current, entity)| == |calls| + 1
    decreases |calls|
  {
    if calls != [] {
      var f := if calls[0].Fire? then FireNow(m, calls[0].event, current, entity) else Fired(current, None, entity, []);
      ThreadedLength(Apply(m, calls[0]), calls[1..], f.state, f.entity);
    }
  }

  lemma ThreadedStart<E>(m: Machine<E>, calls: seq<Call<E>>, current: StateName, entity: E)
    requires WellFormed(m) && AllUsable(m, calls)
    ensures Threaded(m, calls, current, entity) != [] && Threaded(m, calls, current, entity)[0] == current
  {}

  /** The answers of all fires of a run in which the caller passes on state and entity. */
  ghost function Fires<E>(m: Machine<E>, calls: seq<Call<E>>, current: StateName, entity: E): seq<Fired<E>>
    requires WellFormed(m) && AllUsable(m, calls)
    decreases |calls|
  {
    if calls == [] then []
    else if calls[0].Fire? then
      var f := FireNow(m, calls[0].event, current, entity);
      [f] + Fires(m, calls[1..], f.state, f.entity)
    else Fires(Apply(m, calls[0]), calls[1..], current, entity)
  }

  /** The states seen right after the fires. */
  function AtFires<E>(calls: seq<Call<E>>, states: seq<StateName>): seq<StateName>
    requires |states| == |calls| + 1
  {
    if calls == [] then []
    else (if calls[0].Fire? then [states[1]] else []) + AtFires(calls[1..], states[1..])
  }

  function StatesOf<E>(fires: seq<Fired<E>>): seq<StateName> {
    seq(|fires|, i requires 0 <= i < |fires| => fires[i].state)
  }

  lemma {:induction false} FiresAreThreaded<E>(m: Machine<E>, calls: seq<Call<E>>, current: StateName, entity: E)
    requires WellFormed(m) && AllUsable(m, calls)
    ensures |Threaded(m, calls, current, entity)| == |calls| + 1
    ensures AtFires(calls, Threaded(m, calls, current, entity)) == StatesOf(Fires(m, calls, current, entity))
    decreases |calls|
  {
    hide FireNow;
    ThreadedLength(m, calls, current, entity);
    if calls != [] {
      var f := if calls[0].Fire? then FireNow(m, calls[0].event, current, entity) else Fired(current, None, entity, []);
      FiresAreThreaded(Apply(m, calls[0]), calls[1..], f.state, f.entity);
      ThreadedStart(Apply(m, calls[0]), calls[1..], f.state, f.entity);
      assert Threaded(m, calls, current, entity)[1..] == Threaded(Apply(m, calls[0]), calls[1..], f.state, f.entity);
    }
  }

  lemma {:induction false} FiresApart<E>(
    m: Machine<E>, k: Machine<E>, b: nat, calls: seq<Call<E>>, current: StateName, entity: E)
    requires WellFormed(m) && Replaced(m, b) && SameBut(m, k, b) && AllUsable(m, calls)
    ensures WellFormed(k) && AllUsable(k, Without(calls, b))
    ensures Fires(m, calls, current, entity) == Fires(k, Without(calls, b), current, entity)
    decreases |calls|
  {
    hide FireNow, WellFormed, Replaced, SameBut, Apply;
    RunApart(m, k, b, calls);
    FireApart(m, k, b, "", current, entity);
    if calls != [] {
      var c := calls[0];
      StepApart(m, k, b, c);
      if Through(c, b) {
        FiresApart(Apply(m, c), k, b, calls[1..], current, entity);
        assert Without(calls, b) == Without(calls[1..], b);
      } else {
        assert Without(calls, b)[0] == c && Without(calls, b)[1..] == Without(calls[1..], b);
        if c.Fire? {
          FireApart(m, k, b, c.event, current, entity);
          var f := FireNow(m, c.event, current, entity);
          FireKeeps(m, c);
          FireKeeps(k, c);
          FiresApart(m, k, b, calls[1..], f.state, f.entity);
        } else {
          FiresApart(Apply(m, c), Apply(k, c), b, calls[1..], current, entity);
        }
      }
    }
  }

  lemma FireKeeps<E>(m: Machine<E>, c: Call<E>)
    requires c.Fire?
    ensures Usable(m, c) && Apply(m, c) == m
  {}

  /** Over a whole run, too, the caller gets the same answers and the same states at the fires
      whether the calls through a replaced builder are made or left out. */
  lemma ReplacedBuilderIsUnseen<E>(m: Machine<E>, b: nat, calls: seq<Call<E>>, current: StateName, entity: E)
    requires WellFormed(m) && Replaced(m, b) && AllUsable(m, calls)
    ensures AllUsable(m, Without(calls, b))
    ensures |Threaded(m, calls, current, entity)| == |calls| + 1
    ensures |Threaded(m, Without(calls, b), current, entity)| == |Without(calls, b)| + 1
    ensures Fires(m, calls, current, entity) == Fires(m, Without(calls, b), current, entity)
    ensures AtFires(calls, Threaded(m, calls, current, entity))
            == AtFires(Without(calls, b), Threaded(m, Without(calls, b), current, entity))
  {
    hide Fires, Threaded, AtFires, AllUsable, Without, WellFormed, Replaced;
    FiresApart(m, m, b, calls, current, entity);
    FiresAreThreaded(m, calls, current, entity);
    FiresAreThreaded(m, Without(calls, b), current, entity);
  }

  // ------------------------------------------------------------- the objects

  class Rule<!E> {
    var fromStates: map<StateName, bool>
    var toState: StateName
    var guards: seq<Hook<E>>
    var preHooks: seq<Hook<E>>
    var postHooks: seq<Hook<E>>

    constructor ()
      ensures Value() == Blank()
    {
      fromStates, toState, guards, preHooks, postHooks := map[], "", [], [], [];
    }

    ghost function Value(): RuleVal<E>
      reads this
    {
      RuleVal((set s | s in fromStates && fromStates[s]), toState, guards, preHooks, postHooks)
    }
  }

  /** A builder holds the pointer of the rule it was made with. */
  class Builder<!E> {
    const rule: Rule<E>

    constructor (rule: Rule<E>)
      ensures this.rule == rule
    {
      this.rule := rule;
    }

    method From(states: seq<StateName>)
      modifies rule
      ensures rule.Value() == Configured(old(rule.Value()), Call.From(0, states))
    {
      for i := 0 to |states|
        invariant rule.Value() == Configured(old(rule.Value()), Call.From(0, states[..i]))
      {
        ghost var before := rule.Value().fromStates;
        rule.fromStates := rule.fromStates[states[i] := true];
        assert rule.Value().fromStates == before + {states[i]};
        assert SetOf(states[..i + 1]) == SetOf(states[..i]) + {states[i]};
      }
      assert states[..|states|] == states;
    }

    method To(state: StateName)
      modifies rule
      ensures rule.Value() == Configured(old(rule.Value()), Call.To(0, state))
    {
      rule.toState := state;
    }

    method Guard(guards: seq<Hook<E>>)
      modifies rule
      ensures rule.Value() == Configured(old(rule.Value()), Call.Guard(0, guards))
    {
      rule.guards := rule.guards + guards;
    }

    method Pre(actions: seq<Hook<E>>)
      modifies rule
      ensures rule.Value() == Configured(old(rule.Value()), Call.Pre(0, actions))
    {
      rule.preHooks := rule.preHooks + actions;
    }

    method Post(actions: seq<Hook<E>>)
      modifies rule
      ensures rule.Value() == Configured(old(rule.Value()), Call.Post(0, actions))
    {
      rule.postHooks := rule.postHooks + actions;
    }
  }

  /** One of the three hook loops of a fire. */
  method CallHooks<E>(hooks: seq<Hook<E>>, entity: E) returns (after: E, called: nat, err: Option<int>)
    ensures (after, called, err) == RunHooks(hooks, entity)
  {
    after, called, err := entity, 0, None;
    while called < |hooks|
      invariant called <= |hooks| && err.None?
      invariant var rest := RunHooks(hooks[called..], after);
                RunHooks(hooks, entity) == (rest.0, called + rest.1, rest.2)
    {
      assert hooks[called..][1..] == hooks[called + 1..];
      var o := hooks[called].act(after);
      after, called := o.entity, called + 1;
      if o.err.Some? {
        err := o.err;
        return;
      }
    }
  }

  class Fsm<!E> {
    var rules: map<Event, Rule<E>>
    /** Every rule made by On, in order. */
    ghost var made: seq<Rule<E>>

    constructor ()
      ensures Represents(Machine([], map[])) && made == []
    {
      rules, made := map[], [];
    }

    /** The rule objects have the machine's values, and the events point at the same ones. */
    ghost predicate Represents(m: Machine<E>)
      reads this, made
    {
      && WellFormed(m)
      && |made| == |m.heap|
      && (forall i, j :: 0 <= i < j < |made| ==> made[i] != made[j])
      && (forall i :: 0 <= i < |made| ==> made[i].Value() == m.heap[i])
      && rules.Keys == m.rules.Keys
      && (forall e :: e in rules ==> rules[e] == made[m.rules[e]])
    }

    method On(event: Event, ghost m: Machine<E>) returns (b: Builder<E>)
      requires Represents(m)
      modifies this
      ensures fresh(b.rule) && made == old(made) + [b.rule]
      ensures Represents(Apply(m, Call.On(event)))
    {
      hide Rule.Value, Blank, SetOf;
      var rule := new Rule<E>();
      b := new Builder(rule);
      assert forall i :: 0 <= i < |made| ==> made[i].Value() == m.heap[i];
      rules := rules[event := rule];
      made := made + [rule];
      assert forall i :: 0 <= i < |made| ==> made[i].Value() == (m.heap + [Blank()])[i];
      assert forall e :: e in rules ==> rules[e] == made[m.rules[event := |m.heap|][e]];
    }

    method Fire(event: Event, current: StateName, entity: E, ghost m: Machine<E>)
      returns (state: StateName, err: Option<FireError>, after: E, ghost called: seq<Hook<E>>)
      requires Represents(m)
      ensures var f := FireNow(m, event, current, entity); state == f.state && err == f.err && after == f.entity
      ensures called == FireNow(m, event, current, entity).called
    {
      state, err, after, called := current, None, entity, [];
      if event !in rules {
        err := Some(UnknownEvent);
        return;
      }
      var rule := rules[event];
      assert rule.Value() == m.heap[m.rules[event]];
      if current !in rule.fromStates || !rule.fromStates[current] {
        err := Some(InvalidTransition);
        return;
      }
      var n, failure;
      after, n, failure := CallHooks(rule.guards, entity);
      called := rule.guards[..n];
      if failure.Some? {
        err := Some(Aborted(failure.value));
        return;
      }
      after, n, failure := CallHooks(rule.preHooks, after);
      called := rule.guards + rule.preHooks[..n];
      if failure.Some? {
        err := Some(PreFailed(failure.value));
        return;
      }
      state := rule.toState;
      after, n, failure := CallHooks(rule.postHooks, after);
      called := rule.guards + rule.preHooks + rule.postHooks[..n];
      if failure.Some? {
        err := Some(PostFailed(failure.value));
      }
    }
  }

  /** The builders a caller holds: one for every rule made, in order. */
  ghost predicate Holds<E>(f: Fsm<E>, builders: seq<Builder<E>>)
    reads f
  {
    |builders| == |f.made| && forall i :: 0 <= i < |builders| ==> builders[i].rule == f.made[i]
  }

  /** A configuring call through a builder changes the one rule it points at. */
  method Configure<E>(f: Fsm<E>, b: Builder<E>, c: Call<E>, ghost m: Machine<E>)
    requires f.Represents(m) && !c.On? && !c.Fire?
    requires c.builder < |f.made| && b.rule == f.made[c.builder]
    modifies b.rule
    ensures f.Represents(Apply(m, c))
  {
    match c
    case From(_, states) => b.From(states);
    case To(_, state) => b.To(state);
    case Guard(_, hooks) => b.Guard(hooks);
    case Pre(_, hooks) => b.Pre(hooks);
    case Post(_, hooks) => b.Post(hooks);
  }

  /** Any calls made through the objects, threading the returned state, give the machine and the
      states of the value-level run. */
  method Drive<E>(f: Fsm<E>, builders: seq<Builder<E>>, calls: seq<Call<E>>,
                  current: StateName, entity: E, ghost m: Machine<E>)
    returns (states: seq<StateName>)
    requires f.Represents(m) && Holds(f, builders) && AllUsable(m, calls)
    modifies f, f.made
    ensures states == Threaded(m, calls, current, entity)
    ensures WellFormed(ApplyAll(m, calls)) && f.Represents(ApplyAll(m, calls))
    decreases |calls|
  {
    states := [current];
    if calls == [] {
      return;
    }
    var c := calls[0];
    var rest;
    match c {
      case On(event) =>
        var b := f.On(event, m);
        rest := Drive(f, builders + [b], calls[1..], current, entity, Apply(m, c));
      case Fire(event) =>
        var state, err, after, called := f.Fire(event, current, entity, m);
        rest := Drive(f, builders, calls[1..], state, after, m);
      case _ =>
        Configure(f, builders[c.builder], c, m);
        rest := Drive(f, builders, calls[1..], current, entity, Apply(m, c));
    }
    states := states + rest;
  }
}
