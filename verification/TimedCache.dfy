/** The in-process cache of v2/localcachew/cache.go: the object itself, and its operations
    interleaved by concurrent callers and the background sweeper.  The clock is a parameter. */
module TimedCache {
  import opened Text

  /** expiration is a Unix time in nanoseconds; 0 means never. */
  datatype Item<V> = Item(value: V, expiration: int)

  predicate Expired<V>(item: Item<V>, now: int) { item.expiration > 0 && now > item.expiration }

  function Expiration(ttl: int, now: int): int { if ttl > 0 then now + ttl else 0 }

  /** What is stored at one time is still there at another: it has no time to live, or the time is not
      yet over, or its end is not a time after 1970. */
  predicate Current(ttl: int, storedAt: int, now: int) { ttl <= 0 || now <= storedAt + ttl || storedAt + ttl <= 0 }

  /** The timed map that callers should see: what is stored and not yet expired. */
  function Lookup<V>(items: map<string, Item<V>>, key: string, now: int): Option<V> {
    if key in items && !Expired(items[key], now) then Some(items[key].value) else None
  }

  function Sweep<V>(items: map<string, Item<V>>, now: int): map<string, Item<V>> {
    map k | k in items && !Expired(items[k], now) :: items[k]
  }

  /** Sweeping with an old reading of the clock changes no lookup from that reading on. */
  lemma SweepIsInvisible<V>(items: map<string, Item<V>>, key: string, sweptAt: int, now: int)
    requires sweptAt <= now
    ensures Lookup(Sweep(items, sweptAt), key, now) == Lookup(items, key, now)
  {}

  class LocalCache<V> {
    var items: map<string, Item<V>>

    constructor ()
      ensures items == map[]
    {
      items := map[];
    }

    /** now is the clock reading taken before the lock. */
    method SetKV(key: string, value: V, ttl: int, now: int)
      modifies this
      ensures items == old(items)[key := Item(value, Expiration(ttl, now))]
      ensures forall at :: Lookup(items, key, at) == if Current(ttl, now, at) then Some(value) else None
    {
      var exp := 0;
      if ttl > 0 {
        exp := now + ttl;
      }
      items := items[key := Item(value, exp)];
    }

    /** now is the clock reading taken after the lock is given back. */
    method Get(key: string, now: int) returns (r: Option<V>)
      ensures r == Lookup(items, key, now)
    {
      if key !in items {
        return None;
      }
      var item := items[key];
      if item.expiration > 0 && now > item.expiration {
        return None;
      }
      return Some(item.value);
    }

    method Delete(key: string)
      modifies this
      ensures items == old(items) - {key}
    {
      items := items - {key};
    }

    method Clear()
      modifies this
      ensures items == map[]
    {
      items := map[];
    }

    method Length() returns (n: nat)
      ensures n == |items|
    {
      n := |items|;
    }

    /** The deletion loop, over the keys in the order the map yields them. */
    method DeleteExpired(now: int, order: seq<string>)
      requires forall k :: k in order <==> k in items
      modifies this
      ensures items == Sweep(old(items), now)
      ensures forall k :: k in items <==> k in old(items) && !(0 < old(items)[k].expiration < now)
      ensures forall k :: k in items ==> items[k] == old(items)[k]
    {
      var n := 0;
      while n < |order|
        invariant 0 <= n <= |order|
        invariant forall k :: k in items ==> k in old(items) && items[k] == old(items)[k]
        invariant forall k :: k in old(items) ==>
                    (k in items <==> !(k in order[..n] && Expired(old(items)[k], now)))
      {
        var key := order[n];
        if key in items {
          var item := items[key];
          if item.expiration > 0 && now > item.expiration {
            items := items - {key};
          }
        }
        n := n + 1;
      }
      assert order[..n] == order;
    }
  }

  // ----------------------------------------------------------- interleavings

  /** Where a caller stands inside an operation that is not atomic. */
  datatype Pc<V> =
    | Idle
    | Setting(key: string, item: Item<V>)          // clock read, lock not yet taken
    | Got(key: string, found: Option<Item<V>>)     // lock given back, clock not yet read
    | Sweeping(now: int)                           // clock read, lock not yet taken

  datatype State<V> = State(clock: int, items: map<string, Item<V>>, pcs: map<nat, Pc<V>>)

  datatype Action<V> =
    | Tick(to: int)
    | BeginSet(t: nat, key: string, value: V, ttl: int)
    | EndSet(t: nat)
    | BeginGet(t: nat, key: string)
    | EndGet(t: nat)
    | Delete(t: nat, key: string)
    | Clear(t: nat)
    | Length(t: nat)
    | BeginSweep(t: nat)
    | EndSweep(t: nat)

  function PcOf<V>(s: State<V>, t: nat): Pc<V> { if t in s.pcs then s.pcs[t] else Idle }

  predicate Enabled<V>(s: State<V>, a: Action<V>) {
    match a
    case Tick(to) => s.clock <= to
    case BeginSet(t, _, _, _) => PcOf(s, t).Idle?
    case EndSet(t) => PcOf(s, t).Setting?
    case BeginGet(t, _) => PcOf(s, t).Idle?
    case EndGet(t) => PcOf(s, t).Got?
    case Delete(t, _) => PcOf(s, t).Idle?
    case Clear(t) => PcOf(s, t).Idle?
    case Length(t) => PcOf(s, t).Idle?
    case BeginSweep(t) => PcOf(s, t).Idle?
    case EndSweep(t) => PcOf(s, t).Sweeping?
  }

  /** One atomic step; sweeps take effect only if asked to. */
  function Step<V>(s: State<V>, a: Action<V>, sweeping: bool): State<V>
    requires Enabled(s, a)
  {
    match a
    case Tick(to) => s.(clock := to)
    case BeginSet(t, key, value, ttl) => s.(pcs := s.pcs[t := Setting(key, Item(value, Expiration(ttl, s.clock)))])
    case EndSet(t) => s.(pcs := s.pcs[t := Idle], items := s.items[PcOf(s, t).key := PcOf(s, t).item])
    case BeginGet(t, key) => s.(pcs := s.pcs[t := Got(key, if key in s.items then Some(s.items[key]) else None)])
    case EndGet(t) => s.(pcs := s.pcs[t := Idle])
    case Delete(t, key) => s.(items := s.items - {key})
    case Clear(t) => s.(items := map[])
    case Length(_) => s
    case BeginSweep(t) => s.(pcs := s.pcs[t := Sweeping(s.clock)])
    case EndSweep(t) =>
      s.(pcs := s.pcs[t := Idle], items := if sweeping then Sweep(s.items, PcOf(s, t).now) else s.items)
  }

  /** What a Get answers, given what it found and the clock it then reads. */
  function Answer<V>(found: Option<Item<V>>, clock: int): Option<V> {
    match found
    case None => None
    case Some(item) => if Expired(item, clock) then None else Some(item.value)
  }

  /** What a caller gets from one step.  Beside the count of stored items stands the number of those
      that are not expired. */
  datatype Seen<V> = Silence | Answered(answer: Option<V>) | Counted(stored: nat, unexpired: nat)

  function Unexpired<V>(items: map<string, Item<V>>, now: int): set<string> {
    set k | k in items && !Expired(items[k], now)
  }

  function Observed<V>(s: State<V>, a: Action<V>): Seen<V>
    requires Enabled(s, a)
  {
    match a
    case EndGet(t) => Answered(Answer(PcOf(s, t).found, s.clock))
    case Length(_) => Counted(|s.items|, |Unexpired(s.items, s.clock)|)
    case _ => Silence
  }

  /** The swept cache against the never swept one: answers are the same, and the number of items is
      between the number of unexpired ones, which is the same in both, and that of the other. */
  predicate Agree<V(==)>(c: Seen<V>, r: Seen<V>) {
    if c.Counted? then r.Counted? && c.unexpired == r.unexpired && c.unexpired <= c.stored <= r.stored
    else c == r
  }

  ghost predicate AllAgree<V>(cs: seq<Seen<V>>, rs: seq<Seen<V>>) {
    |cs| == |rs| && forall i :: 0 <= i < |cs| ==> Agree(cs[i], rs[i])
  }

  ghost predicate Legal<V>(s: State<V>, actions: seq<Action<V>>, sweeping: bool)
    decreases |actions|
  {
    actions != [] ==>
      Enabled(s, actions[0]) && Legal(Step(s, actions[0], sweeping), actions[1..], sweeping)
  }

  ghost function After<V>(s: State<V>, actions: seq<Action<V>>, sweeping: bool): State<V>
    requires Legal(s, actions, sweeping)
    decreases |actions|
  {
    if actions == [] then s else After(Step(s, actions[0], sweeping), actions[1..], sweeping)
  }

  /** What callers see in the steps of an execution, in order. */
  ghost function Observations<V>(s: State<V>, actions: seq<Action<V>>, sweeping: bool): seq<Seen<V>>
    requires Legal(s, actions, sweeping)
    decreases |actions|
  {
    if actions == [] then []
    else [Observed(s, actions[0])] + Observations(Step(s, actions[0], sweeping), actions[1..], sweeping)
  }

  // ---------------------------------------- the sweeper cannot be told to exist

  ghost predicate SameFound<V>(c: Option<Item<V>>, r: Option<Item<V>>, clock: int) {
    c == r || (c.None? && r.Some? && Expired(r.value, clock))
  }

  ghost predicate SamePc<V>(c: Pc<V>, r: Pc<V>, clock: int) {
    if c.Got? then r.Got? && c.key == r.key && SameFound(c.found, r.found, clock)
    else c == r && (c.Sweeping? ==> c.now <= clock)
  }

  /** The swept cache against the never swept one: what is missing has expired. */
  ghost predicate Related<V>(c: State<V>, r: State<V>) {
    && c.clock == r.clock
    && (forall t: nat :: SamePc(PcOf(c, t), PcOf(r, t), c.clock))
    && (forall k :: k in c.items ==> k in r.items && c.items[k] == r.items[k])
    && (forall k :: k in r.items && k !in c.items ==> Expired(r.items[k], c.clock))
  }

  lemma Fewer<T>(a: set<T>, b: set<T>)
    requires a <= b
    ensures |a| <= |b|
  {
    if a != {} {
      var x :| x in a;
      Fewer(a - {x}, b - {x});
    }
  }

  lemma CountsAgree<V>(c: map<string, Item<V>>, r: map<string, Item<V>>, now: int)
    requires forall k :: k in c ==> k in r && c[k] == r[k]
    requires forall k :: k in r && k !in c ==> Expired(r[k], now)
    ensures Unexpired(c, now) == Unexpired(r, now)
    ensures |Unexpired(c, now)| <= |c| <= |r|
  {
    Fewer(Unexpired(c, now), c.Keys);
    Fewer(c.Keys, r.Keys);
  }

  lemma StepRefines<V>(c: State<V>, r: State<V>, a: Action<V>)
    requires Related(c, r) && Enabled(c, a)
    ensures Enabled(r, a) && Related(Step(c, a, true), Step(r, a, false))
    ensures Agree(Observed(c, a), Observed(r, a))
  {
    if a.Length? {
      CountsAgree(c.items, r.items, c.clock);
    }
    if !a.Tick? {
      assert SamePc(PcOf(c, a.t), PcOf(r, a.t), c.clock);
    }
    var c', r' := Step(c, a, true), Step(r, a, false);
    forall t: nat ensures SamePc(PcOf(c', t), PcOf(r', t), c'.clock) {
      assert SamePc(PcOf(c, t), PcOf(r, t), c.clock);
    }
  }

  /** Refinement: under every interleaving, with a clock that never runs backwards, callers of Get see
      the same answers as from a timed map that is never swept, and callers of Length a number
      between that of its unexpired items and that of all its items. */
  lemma {:induction false} SweepingIsInvisible<V>(c: State<V>, r: State<V>, actions: seq<Action<V>>)
    requires Related(c, r) && Legal(c, actions, true)
    ensures Legal(r, actions, false)
    ensures AllAgree(Observations(c, actions, true), Observations(r, actions, false))
    ensures Related(After(c, actions, true), After(r, actions, false))
    decreases |actions|
  {
    if actions != [] {
      StepRefines(c, r, actions[0]);
      SweepingIsInvisible(Step(c, actions[0], true), Step(r, actions[0], false), actions[1..]);
    }
  }

  lemma SameEnabled<V>(c: State<V>, r: State<V>, a: Action<V>)
    requires Related(c, r)
    ensures Enabled(c, a) <==> Enabled(r, a)
  {
    if !a.Tick? {
      assert SamePc(PcOf(c, a.t), PcOf(r, a.t), c.clock);
    }
  }

  lemma {:induction false} SameExecutions<V>(c: State<V>, r: State<V>, actions: seq<Action<V>>)
    requires Related(c, r)
    ensures Legal(c, actions, true) <==> Legal(r, actions, false)
    decreases |actions|
  {
    hide Related, Enabled, Step;
    if actions != [] {
      SameEnabled(c, r, actions[0]);
      if Enabled(c, actions[0]) {
        StepRefines(c, r, actions[0]);
        SameExecutions(Step(c, actions[0], true), Step(r, actions[0], false), actions[1..]);
      }
    }
  }

  function Start<V>(clock: int): State<V> { State(clock, map[], map[]) }

  lemma StartRelated<V>(clock: int)
    ensures Related<V>(Start(clock), Start(clock))
  {}

  /** From an empty cache the swept and the never swept system have the same executions; in each, every
      Get has the same answer, and every Length counts all unexpired items and no more items than the
      never swept system holds. */
  lemma SweptAndUnsweptAgree<V>(clock: int, actions: seq<Action<V>>)
    ensures Legal(Start(clock), actions, true) <==> Legal(Start(clock), actions, false)
    ensures Legal(Start(clock), actions, true) ==>
              AllAgree(Observations(Start(clock), actions, true), Observations(Start(clock), actions, false))
  {
    hide Related, AllAgree;
    StartRelated<V>(clock);
    SameExecutions(Start(clock), Start(clock), actions);
    if Legal(Start(clock), actions, true) {
      SweepingIsInvisible(Start(clock), Start(clock), actions);
    }
  }

  // -------------------------------------------- when a Get's answer was right

  predicate ActsFor<V>(a: Action<V>, t: nat) { !a.Tick? && a.t == t }

  ghost predicate Untouched<V>(actions: seq<Action<V>>, t: nat) {
    forall i :: 0 <= i < |actions| ==> !ActsFor(actions[i], t)
  }

  lemma {:induction false} CallerWaits<V>(s: State<V>, actions: seq<Action<V>>, sweeping: bool, t: nat)
    requires Legal(s, actions, sweeping) && Untouched(actions, t)
    ensures PcOf(After(s, actions, sweeping), t) == PcOf(s, t)
    ensures s.clock <= After(s, actions, sweeping).clock
    decreases |actions|
  {
    if actions != [] {
      assert !ActsFor(actions[0], t);
      CallerWaits(Step(s, actions[0], sweeping), actions[1..], sweeping, t);
    }
  }

  /** A hit returns the value that the key had, unexpired, at the moment of the locked read,
      whatever others do before the clock is read. */
  lemma HitWasCurrent<V>(s: State<V>, t: nat, key: string, actions: seq<Action<V>>, sweeping: bool)
    requires Enabled(s, BeginGet(t, key)) && Untouched(actions, t)
    requires Legal(Step(s, BeginGet(t, key), sweeping), actions, sweeping)
    ensures var e := After(Step(s, BeginGet(t, key), sweeping), actions, sweeping);
            && Enabled(e, EndGet(t))
            && var answer := Answer(PcOf(e, t).found, e.clock);
               answer.Some? ==> answer == Lookup(s.items, key, s.clock)
  {
    var b := Step(s, BeginGet(t, key), sweeping);
    CallerWaits(b, actions, sweeping, t);
  }

  /** Does an action write a key of the map? */
  predicate Writes<V>(s: State<V>, a: Action<V>, key: string) {
    match a
    case EndSet(t) => PcOf(s, t).Setting? && PcOf(s, t).key == key
    case Delete(_, k) => k == key
    case Clear(_) => true
    case _ => false
  }

  ghost predicate Unwritten<V>(s: State<V>, actions: seq<Action<V>>, sweeping: bool, key: string)
    requires Legal(s, actions, sweeping)
    decreases |actions|
  {
    actions != [] ==>
      !Writes(s, actions[0], key) && Unwritten(Step(s, actions[0], sweeping), actions[1..], sweeping, key)
  }

  /** Without writes to a key, only the sweeper touches it, and only once it has expired. */
  lemma {:induction false} OnlySweptMeanwhile<V>(s: State<V>, actions: seq<Action<V>>, sweeping: bool, key: string)
    requires Legal(s, actions, sweeping) && Unwritten(s, actions, sweeping, key)
    ensures var e := After(s, actions, sweeping);
            key in e.items ==> key in s.items && e.items[key] == s.items[key]
    decreases |actions|
  {
    if actions != [] {
      OnlySweptMeanwhile(Step(s, actions[0], sweeping), actions[1..], sweeping, key);
    }
  }

  /** A miss is exact at the moment the Get returns if no write to its key overlaps it. */
  lemma MissIsExact<V>(s: State<V>, t: nat, key: string, actions: seq<Action<V>>, sweeping: bool)
    requires Enabled(s, BeginGet(t, key)) && Untouched(actions, t)
    requires var b := Step(s, BeginGet(t, key), sweeping);
             Legal(b, actions, sweeping) && Unwritten(b, actions, sweeping, key)
    ensures var e := After(Step(s, BeginGet(t, key), sweeping), actions, sweeping);
            && Enabled(e, EndGet(t))
            && (Answer(PcOf(e, t).found, e.clock).None? ==> Lookup(e.items, key, e.clock) == None)
  {
    var b := Step(s, BeginGet(t, key), sweeping);
    CallerWaits(b, actions, sweeping, t);
    OnlySweptMeanwhile(b, actions, sweeping, key);
  }

  // ------------------------------------------------- from a SetKV to a Get

  /** A sweeper's reading of the clock is never ahead of the clock. */
  ghost predicate Timely<V>(s: State<V>) { forall t: nat :: PcOf(s, t).Sweeping? ==> PcOf(s, t).now <= s.clock }

  lemma {:induction false} StaysTimely<V>(s: State<V>, actions: seq<Action<V>>, sweeping: bool)
    requires Timely(s) && Legal(s, actions, sweeping)
    ensures Timely(After(s, actions, sweeping)) && s.clock <= After(s, actions, sweeping).clock
    decreases |actions|
  {
    if actions != [] {
      var s' := Step(s, actions[0], sweeping);
      forall t: nat ensures PcOf(s', t).Sweeping? ==> PcOf(s', t).now <= s'.clock {
        assert PcOf(s, t).Sweeping? ==> PcOf(s, t).now <= s.clock;
      }
      StaysTimely(s', actions[1..], sweeping);
    }
  }

  lemma StartTimely<V>(clock: int)
    ensures Timely<V>(Start(clock))
  {}

  /** An item is stored, or it was swept after its time. */
  ghost predicate KeptOrSwept<V>(s: State<V>, key: string, item: Item<V>) {
    if key in s.items then s.items[key] == item else Expired(item, s.clock)
  }

  lemma {:induction false} StaysKeptOrSwept<V>(
    s: State<V>, actions: seq<Action<V>>, sweeping: bool, key: string, item: Item<V>)
    requires Timely(s) && Legal(s, actions, sweeping) && Unwritten(s, actions, sweeping, key)
    requires KeptOrSwept(s, key, item)
    ensures KeptOrSwept(After(s, actions, sweeping), key, item)
    decreases |actions|
  {
    if actions != [] {
      var a := actions[0];
      StaysTimely(s, [a], sweeping) by {
        assert Legal(Step(s, a, sweeping), [], sweeping);
      }
      assert After(s, [a], sweeping) == Step(s, a, sweeping);
      assert a.EndSweep? ==> PcOf(s, a.t).now <= s.clock;
      StaysKeptOrSwept(Step(s, a, sweeping), actions[1..], sweeping, key, item);
    }
  }

  /** The states of a SetKV, of what happens until a Get of the key begins, and of that Get. */
  datatype Story<V> = Story(
    writer: nat, key: string, value: V, ttl: int,
    inWrite: seq<Action<V>>, between: seq<Action<V>>, reader: nat, inRead: seq<Action<V>>)

  ghost function Written<V>(s: State<V>, x: Story<V>, sweeping: bool): State<V>
    requires Happens(s, x, sweeping)
  {
    var began := Step(s, BeginSet(x.writer, x.key, x.value, x.ttl), sweeping);
    Step(After(began, x.inWrite, sweeping), EndSet(x.writer), sweeping)
  }

  ghost function ReadAt<V>(s: State<V>, x: Story<V>, sweeping: bool): State<V>
    requires Happens(s, x, sweeping)
  {
    var begin := After(Written(s, x, sweeping), x.between, sweeping);
    After(Step(begin, BeginGet(x.reader, x.key), sweeping), x.inRead, sweeping)
  }

  /** The writer sets the key; nobody writes it again before the reader has read it. */
  ghost predicate Happens<V>(s: State<V>, x: Story<V>, sweeping: bool) {
    && Enabled(s, BeginSet(x.writer, x.key, x.value, x.ttl))
    && var began := Step(s, BeginSet(x.writer, x.key, x.value, x.ttl), sweeping);
    && Legal(began, x.inWrite, sweeping) && Untouched(x.inWrite, x.writer)
    && var end := After(began, x.inWrite, sweeping);
    && Enabled(end, EndSet(x.writer))
    && var written := Step(end, EndSet(x.writer), sweeping);
    && Legal(written, x.between, sweeping) && Unwritten(written, x.between, sweeping, x.key)
    && var begin := After(written, x.between, sweeping);
    && Enabled(begin, BeginGet(x.reader, x.key))
    && var reading := Step(begin, BeginGet(x.reader, x.key), sweeping);
    && Legal(reading, x.inRead, sweeping) && Untouched(x.inRead, x.reader)
  }

  lemma WrittenIsStored<V>(s: State<V>, x: Story<V>, sweeping: bool)
    requires Timely(s) && Happens(s, x, sweeping)
    ensures var w := Written(s, x, sweeping);
            && Timely(w) && s.clock <= w.clock && x.key in w.items
            && w.items[x.key] == Item(x.value, if x.ttl > 0 then s.clock + x.ttl else 0)
  {
    var began := Step(s, BeginSet(x.writer, x.key, x.value, x.ttl), sweeping);
    forall t: nat ensures PcOf(began, t).Sweeping? ==> PcOf(began, t).now <= began.clock {
      assert PcOf(s, t).Sweeping? ==> PcOf(s, t).now <= s.clock;
    }
    StaysTimely(began, x.inWrite, sweeping);
    CallerWaits(began, x.inWrite, sweeping, x.writer);
    var end, w := After(began, x.inWrite, sweeping), Written(s, x, sweeping);
    forall t: nat ensures PcOf(w, t).Sweeping? ==> PcOf(w, t).now <= w.clock {
      assert PcOf(end, t).Sweeping? ==> PcOf(end, t).now <= end.clock;
    }
  }

  /** In every interleaving, swept or not: after a SetKV and without a later write to the key, a Get
      answers the value exactly when the value has no time to live, or the time since the clock
      reading of the SetKV is not over at that of the Get (and ends after 1970), and misses otherwise. */
  lemma SetThenGet<V>(s: State<V>, x: Story<V>, sweeping: bool)
    requires Timely(s) && Happens(s, x, sweeping)
    ensures var e := ReadAt(s, x, sweeping);
            && Enabled(e, EndGet(x.reader))
            && Observed(e, EndGet(x.reader))
               == Answered(if x.ttl <= 0 || e.clock <= s.clock + x.ttl || s.clock + x.ttl <= 0 then Some(x.value)
                           else None)
  {
    var w := Written(s, x, sweeping);
    WrittenIsStored(s, x, sweeping);
    var item := w.items[x.key];
    hide Happens, Timely;
    ReadOf(s, x, sweeping);
    StaysKeptOrSwept(w, x.between, sweeping, x.key, item);
    StaysTimely(w, x.between, sweeping);
    var begin := After(w, x.between, sweeping);
    var reading := Step(begin, BeginGet(x.reader, x.key), sweeping);
    CallerWaits(reading, x.inRead, sweeping, x.reader);
  }

  lemma ReadOf<V>(s: State<V>, x: Story<V>, sweeping: bool)
    requires Happens(s, x, sweeping)
    ensures var w := Written(s, x, sweeping);
            && Legal(w, x.between, sweeping) && Unwritten(w, x.between, sweeping, x.key)
            && var begin := After(w, x.between, sweeping);
            && Enabled(begin, BeginGet(x.reader, x.key))
            && var reading := Step(begin, BeginGet(x.reader, x.key), sweeping);
            && Legal(reading, x.inRead, sweeping) && Untouched(x.inRead, x.reader)
            && ReadAt(s, x, sweeping) == After(reading, x.inRead, sweeping)
  {}

  /** A key that is not stored, as at the start, after its Delete or after a Clear, is missed until it is
      written. */
  lemma AbsentIsMissed<V>(
    s: State<V>, key: string, between: seq<Action<V>>, reader: nat, inRead: seq<Action<V>>, sweeping: bool)
    requires key !in s.items && Legal(s, between, sweeping) && Unwritten(s, between, sweeping, key)
    requires Enabled(After(s, between, sweeping), BeginGet(reader, key)) && Untouched(inRead, reader)
    requires Legal(Step(After(s, between, sweeping), BeginGet(reader, key), sweeping), inRead, sweeping)
    ensures var e := After(Step(After(s, between, sweeping), BeginGet(reader, key), sweeping), inRead, sweeping);
            Enabled(e, EndGet(reader)) && Observed(e, EndGet(reader)) == Answered(None)
  {
    OnlySweptMeanwhile(s, between, sweeping, key);
    CallerWaits(Step(After(s, between, sweeping), BeginGet(reader, key), sweeping), inRead, sweeping, reader);
  }

  /** Length answers how many items are stored; those whose time is over are not among the unexpired. */
  lemma LengthCounts<V>(s: State<V>, t: nat)
    requires Enabled(s, Action.Length(t))
    ensures Observed(s, Action.Length(t))
            == Counted(|s.items|, |set k | k in s.items && !(0 < s.items[k].expiration < s.clock)|)
  {
    assert Unexpired(s.items, s.clock) == set k | k in s.items && !(0 < s.items[k].expiration < s.clock);
  }

  /** A sweep removes what was over when it read the clock, and nothing else. */
  lemma SweepRemovesExpired<V>(s: State<V>, t: nat)
    requires Enabled(s, EndSweep(t))
    ensures var after := Step(s, EndSweep(t), true).items;
            && (forall k :: k in after <==> k in s.items && !(0 < s.items[k].expiration < PcOf(s, t).now))
            && (forall k :: k in after ==> after[k] == s.items[k])
  {}

  lemma RemovedIsAbsent<V>(s: State<V>, t: nat, key: string, sweeping: bool)
    requires Enabled(s, Action.Delete(t, key))
    ensures key !in Step(s, Action.Delete(t, key), sweeping).items
    ensures Enabled(s, Action.Clear(t)) && Step(s, Action.Clear(t), sweeping).items == map[]
    ensures forall k :: k != key && k in s.items ==>
              k in Step(s, Action.Delete(t, key), sweeping).items
              && Step(s, Action.Delete(t, key), sweeping).items[k] == s.items[k]
  {}
}
