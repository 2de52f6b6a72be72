/** What the rules of a state machine are after any calls, read off the calls themselves, and what a
    fire along the way does with them (v2/statemachinew/fsm.go). */
module Configuration {
  import opened Text
  import opened StateMachine

  function NewMachine<E>(): Machine<E> { Machine([], map[]) }

  /** The number of On calls: builders are numbered in the order in which On made them. */
  function Ons<E>(calls: seq<Call<E>>): nat {
    if calls == [] then 0 else Ons(calls[..|calls| - 1]) + if calls[|calls| - 1].On? then 1 else 0
  }

  /** The builder that the last On call for an event made. */
  function LastOn<E>(calls: seq<Call<E>>, event: Event): Option<nat> {
    if calls == [] then None
    else
      var front, last := calls[..|calls| - 1], calls[|calls| - 1];
      if last.On? && last.event == event then Some(Ons(front)) else LastOn(front, event)
  }

  /** The states of all From calls through a builder. */
  function FromGiven<E>(calls: seq<Call<E>>, b: nat): set<StateName> {
    set i, s | 0 <= i < |calls| && calls[i].From? && calls[i].builder == b && s in calls[i].states :: s
  }

  /** The state of the last To call through it, "" without one. */
  function ToGiven<E>(calls: seq<Call<E>>, b: nat): StateName {
    if calls == [] then ""
    else
      var last := calls[|calls| - 1];
      if last.To? && last.builder == b then last.state else ToGiven(calls[..|calls| - 1], b)
  }

  datatype Kind = Guards | PreHooks | PostHooks

  /** The hooks of one kind that a call gives a builder. */
  function HooksIn<E>(c: Call<E>, b: nat, kind: Kind): seq<Hook<E>> {
    match c
    case Guard(d, hooks) => if d == b && kind.Guards? then hooks else []
    case Pre(d, hooks) => if d == b && kind.PreHooks? then hooks else []
    case Post(d, hooks) => if d == b && kind.PostHooks? then hooks else []
    case _ => []
  }

  /** The hooks of one kind that all calls gave it, in order. */
  function HooksGiven<E>(calls: seq<Call<E>>, b: nat, kind: Kind): seq<Hook<E>> {
    if calls == [] then []
    else HooksGiven(calls[..|calls| - 1], b, kind) + HooksIn(calls[|calls| - 1], b, kind)
  }

  /** Everything a builder was given. */
  function RuleGiven<E>(calls: seq<Call<E>>, b: nat): RuleVal<E> {
    RuleVal(FromGiven(calls, b), ToGiven(calls, b), HooksGiven(calls, b, Guards), HooksGiven(calls, b, PreHooks),
            HooksGiven(calls, b, PostHooks))
  }

  lemma {:induction false} AppliedLast<E>(m: Machine<E>, calls: seq<Call<E>>, c: Call<E>)
    requires AllUsable(m, calls + [c])
    ensures AllUsable(m, calls) && Usable(ApplyAll(m, calls), c)
    ensures ApplyAll(m, calls + [c]) == Apply(ApplyAll(m, calls), c)
    decreases |calls|
  {
    hide Apply, Usable;
    if calls == [] {
      assert [c][1..] == [] && [] + [c] == [c];
    } else {
      assert (calls + [c])[0] == calls[0] && (calls + [c])[1..] == calls[1..] + [c];
      AppliedLast(Apply(m, calls[0]), calls[1..], c);
    }
  }

  lemma FromMore<E>(calls: seq<Call<E>>, c: Call<E>, b: nat)
    ensures FromGiven(calls + [c], b)
            == FromGiven(calls, b) + if c.From? && c.builder == b then (set s | s in c.states) else {}
  {
    var all := calls + [c];
    assert forall i :: 0 <= i < |calls| ==> all[i] == calls[i];
    assert all[|calls|] == c;
  }

  lemma RuleMore<E>(calls: seq<Call<E>>, c: Call<E>, b: nat)
    ensures var before, after := RuleGiven(calls, b), RuleGiven(calls + [c], b);
            && after.fromStates
               == before.fromStates + (if c.From? && c.builder == b then (set s | s in c.states) else {})
            && after.toState == (if c.To? && c.builder == b then c.state else before.toState)
            && after.guards == before.guards + HooksIn(c, b, Guards)
            && after.preHooks == before.preHooks + HooksIn(c, b, PreHooks)
            && after.postHooks == before.postHooks + HooksIn(c, b, PostHooks)
    ensures Ons(calls + [c]) == Ons(calls) + if c.On? then 1 else 0
    ensures forall event :: LastOn(calls + [c], event)
                            == if c.On? && c.event == event then Some(Ons(calls)) else LastOn(calls, event)
  {
    assert (calls + [c])[..|calls|] == calls;
    FromMore(calls, c, b);
    hide FromGiven, HooksIn;
  }

  lemma GivenMore<E>(calls: seq<Call<E>>, c: Call<E>, b: nat)
    ensures RuleGiven(calls + [c], b)
            == if Through(c, b) then Configured(RuleGiven(calls, b), c) else RuleGiven(calls, b)
  {
    RuleMore(calls, c, b);
    hide RuleGiven;
  }

  /** A builder that is not made yet was given nothing. */
  ghost predicate NotGiven<E>(calls: seq<Call<E>>, b: nat) {
    forall i :: 0 <= i < |calls| ==> !Through(calls[i], b)
  }

  lemma {:induction false} NothingGiven<E>(calls: seq<Call<E>>, b: nat)
    requires NotGiven(calls, b)
    ensures RuleGiven(calls, b) == RuleVal({}, "", [], [], [])
  {
    if calls != [] {
      hide RuleGiven, Configured;
      var n := |calls| - 1;
      NothingGiven(calls[..n], b);
      GivenMore(calls[..n], calls[n], b);
      assert calls == calls[..n] + [calls[n]];
    }
  }

  /** The machine after some calls: a rule for every On call with what its builder was given, and each
      event at the rule of its last On call. */
  ghost predicate AsGiven<E>(m: Machine<E>, calls: seq<Call<E>>) {
    && |m.heap| == Ons(calls) && WellFormed(m)
    && (forall b: nat :: b < |m.heap| ==> m.heap[b] == RuleGiven(calls, b))
    && (forall b: nat :: b >= |m.heap| ==> NotGiven(calls, b))
    && (forall event :: event in m.rules <==> LastOn(calls, event).Some?)
    && (forall event :: event in m.rules ==> LastOn(calls, event) == Some(m.rules[event]))
  }

  lemma CountsMore<E>(calls: seq<Call<E>>, c: Call<E>)
    ensures Ons(calls + [c]) == Ons(calls) + if c.On? then 1 else 0
    ensures forall event :: LastOn(calls + [c], event)
                            == if c.On? && c.event == event then Some(Ons(calls)) else LastOn(calls, event)
  {
    assert (calls + [c])[..|calls|] == calls;
  }

  lemma OneMoreCall<E>(m: Machine<E>, calls: seq<Call<E>>, c: Call<E>)
    requires AsGiven(m, calls) && Usable(m, c)
    ensures AsGiven(Apply(m, c), calls + [c])
  {
    var m', all := Apply(m, c), calls + [c];
    CountsMore(calls, c);
    hide RuleGiven, Configured, Ons, LastOn;
    forall b: nat | b < |m'.heap| ensures m'.heap[b] == RuleGiven(all, b) {
      GivenMore(calls, c, b);
      if b == |m.heap| {
        NothingGiven(calls, b);
      }
    }
    forall b: nat | b >= |m'.heap| ensures NotGiven(all, b) {
      assert NotGiven(calls, b);
    }
  }

  /** For any calls on a new machine: the rule that an event uses holds the states of the From calls made
      through its builder since the event's last On, the state of the last To, and as guards, pre- and
      post-hooks what the Guard, Pre and Post calls gave, in order. */
  lemma {:induction false} RulesAreAsGiven<E>(calls: seq<Call<E>>)
    requires AllUsable(NewMachine(), calls)
    ensures AsGiven(ApplyAll(NewMachine(), calls), calls)
  {
    if calls != [] {
      var n := |calls| - 1;
      assert calls == calls[..n] + [calls[n]];
      AppliedLast(NewMachine(), calls[..n], calls[n]);
      RulesAreAsGiven(calls[..n]);
      OneMoreCall(ApplyAll(NewMachine(), calls[..n]), calls[..n], calls[n]);
    }
  }

  // -------------------------------------------------------- firing along calls

  /** A fire after any calls on a new machine, of an event that On was never called for, or of the rule
      that its builder was given: the state changes to that of the last To exactly when the current
      one was given by From and no guard or pre-hook that was given fails; the hooks are called in order
      up to the first that fails, which the error names. */
  lemma FireAsGiven<E>(calls: seq<Call<E>>, event: Event, current: StateName, entity: E)
    requires AllUsable(NewMachine(), calls)
    ensures WellFormed(ApplyAll(NewMachine(), calls))
    ensures var f := FireNow(ApplyAll(NewMachine(), calls), event, current, entity);
            match LastOn(calls, event)
            case None => f == Fired(current, Some(UnknownEvent), entity, [])
            case Some(b) => RuleFired(calls, b, current, entity, f)
  {
    RulesAreAsGiven(calls);
    var m := ApplyAll(NewMachine(), calls);
    if event in m.rules {
      RuleFires(calls, m.rules[event], current, entity);
    }
    hide ApplyAll, AllUsable, FireRule, RuleGiven, LastOn, RuleFired;
  }

  /** What firing the rule of a builder amounts to. */
  ghost predicate RuleFired<E>(calls: seq<Call<E>>, b: nat, current: StateName, entity: E, f: Fired<E>) {
    var guards, pre := HooksGiven(calls, b, Guards), HooksGiven(calls, b, PreHooks);
    var all := guards + pre + HooksGiven(calls, b, PostHooks);
    && f.state == (if current in FromGiven(calls, b) && NoFailure(guards + pre, entity)
                   then ToGiven(calls, b) else current)
    && f.called <= all && f.entity == ActAll(f.called, entity)
    && (f.err == Some(InvalidTransition) <==> current !in FromGiven(calls, b))
    && (f.err.None? ==> f.called == all && NoFailure(all, entity))
    && (f.err.Some? && f.err != Some(InvalidTransition) ==> FailsAt(|guards|, |guards + pre|, all, entity, f))
  }

  lemma RuleFires<E>(calls: seq<Call<E>>, b: nat, current: StateName, entity: E)
    ensures RuleFired(calls, b, current, entity, FireRule(RuleGiven(calls, b), current, entity))
  {
    StateChangesExactly(RuleGiven(calls, b), current, entity);
    HooksRunInOrder(RuleGiven(calls, b), current, entity);
    hide NoFailure, ActAll, FirstFailure, FireRule, FromGiven, ToGiven, HooksGiven;
  }

  /** The last hook called is the first to fail; the error names its list, by how many hooks come before
      the pre- and the post-hooks, and what it returned. */
  ghost predicate FailsAt<E>(pre: nat, post: nat, all: seq<Hook<E>>, entity: E, f: Fired<E>) {
    var n := |f.called| - 1;
    && 0 <= n < |all| && FirstFailure(all, entity, n)
    && var cause := all[n].act(ActAll(all[..n], entity)).err.value;
       f.err == Some(if n < pre then Aborted(cause) else if n < post then PreFailed(cause) else PostFailed(cause))
  }

  /** State and entity of a caller who passes on what each fire returns. */
  ghost function Along<E>(m: Machine<E>, calls: seq<Call<E>>, current: StateName, entity: E): (StateName, E)
    requires WellFormed(m) && AllUsable(m, calls)
    decreases |calls|
  {
    if calls == [] then (current, entity)
    else if calls[0].Fire? then
      var f := FireNow(m, calls[0].event, current, entity);
      Along(m, calls[1..], f.state, f.entity)
    else Along(Apply(m, calls[0]), calls[1..], current, entity)
  }

  lemma {:induction false} AlongFire<E>(
    m: Machine<E>, calls: seq<Call<E>>, n: nat, current: StateName, entity: E)
    requires WellFormed(m) && AllUsable(m, calls) && n < |calls|
    ensures |Threaded(m, calls, current, entity)| == |calls| + 1
    ensures AllUsable(m, calls[..n]) && WellFormed(ApplyAll(m, calls[..n]))
    ensures var at := Along(m, calls[..n], current, entity);
            && Threaded(m, calls, current, entity)[n] == at.0
            && Threaded(m, calls, current, entity)[n + 1]
               == if calls[n].Fire? then FireNow(ApplyAll(m, calls[..n]), calls[n].event, at.0, at.1).state else at.0
    decreases |calls|
  {
    hide FireNow;
    AppliedPrefix(m, calls, n);
    ThreadedLength(m, calls, current, entity);
    var f := if calls[0].Fire? then FireNow(m, calls[0].event, current, entity) else Fired(current, None, entity, []);
    if n == 0 {
      assert calls[..0] == [];
      ThreadedStart(Apply(m, calls[0]), calls[1..], f.state, f.entity);
    } else {
      AlongFire(Apply(m, calls[0]), calls[1..], n - 1, f.state, f.entity);
      assert calls[..n][1..] == calls[1..][..n - 1] && calls[..n][0] == calls[0];
    }
  }

  /** Every fire of a run on a new machine acts on the state and entity that the fires before it left,
      with the rule that the calls before it gave. */
  lemma FireAlong<E>(calls: seq<Call<E>>, n: nat, current: StateName, entity: E) returns (f: Fired<E>)
    requires AllUsable(NewMachine(), calls) && n < |calls| && calls[n].Fire?
    ensures |Threaded(NewMachine(), calls, current, entity)| == |calls| + 1
    ensures AllUsable(NewMachine(), calls[..n])
    ensures Threaded(NewMachine(), calls, current, entity)[n + 1] == f.state
    ensures var at := Along(NewMachine(), calls[..n], current, entity);
            && Threaded(NewMachine(), calls, current, entity)[n] == at.0
            && match LastOn(calls[..n], calls[n].event)
               case None => f == Fired(at.0, Some(UnknownEvent), at.1, [])
               case Some(b) => RuleFired(calls[..n], b, at.0, at.1, f)
  {
    AlongFire(NewMachine(), calls, n, current, entity);
    var at := Along(NewMachine(), calls[..n], current, entity);
    FireAsGiven(calls[..n], calls[n].event, at.0, at.1);
    f := FireNow(ApplyAll(NewMachine(), calls[..n]), calls[n].event, at.0, at.1);
    hide Threaded, Along, ApplyAll, AllUsable, FireNow, RuleFired, LastOn;
  }
}
