/** What a conversion amounts to, number by number, element by element, field by field and key by
    key. */
module ConvertMeaning {
  import opened Text
  import opened Numbers
  import opened GoTypes
  import opened Fields
  import opened Convert
  import opened ConvertSteps

  // ------------------------------------------------------------------ numbers

  /** Integers of one kind become integers of another kind by way of float64: exactly as long as
      they are within 2^53, and then modulo the width of the kind, negative numbers in an unsigned
      kind becoming 0. */
  lemma IntegerConversion(env: Env, k: Num, dst: Value, j: Num, src: Value)
    requires Sane(env) && HasType(dst, TNum(k)) && HasType(src, TNum(j)) && !k.IsFloat() && !j.IsFloat()
    ensures var r := Convert.Convert(env, TNum(k), dst, TNum(j), src);
            && r.err.None? && r.dst.VInt?
            && (j == k ==> r.dst == src)
            && (j != k ==> r.dst.n == Detour(env.floats, k, src.n))
            && (InRange(k, src.n) && Abs(src.n) <= MANTISSA ==> r.dst == src)
            && (k.IsSigned() && Abs(src.n) <= MANTISSA ==> Congruent(r.dst.n, src.n, k.Modulus()))
            && (k.IsUnsigned() && Abs(src.n) <= MANTISSA ==>
                 Congruent(r.dst.n, if src.n < 0 then 0 else src.n, k.Modulus()))
  {
    IntegersTakeTheDetour(env, k, dst, j, src);
    hide *;
    if Abs(src.n) <= MANTISSA {
      DetourExact(env.floats, k, src.n);
      SameIsCongruent(k, src.n);
    }
  }

  lemma SameIsCongruent(k: Num, n: int)
    ensures Congruent(n, n, k.Modulus())
    ensures !k.IsFloat() && k.IsUnsigned() && InRange(k, n) ==> n >= 0
  {
    assert n == n + 0 * k.Modulus();
  }

  lemma NumbersReachNumbers(env: Env, k: Num, dst: Value, j: Num, src: Value)
    requires Sane(env) && HasType(dst, TNum(k)) && HasType(src, TNum(j))
    ensures Convert.Convert(env, TNum(k), dst, TNum(j), src)
            == if j == k then Outcome(src, None) else NumberToNumber(env, k, dst, TNum(j), src)
  {
    hide Sane, HasType, NumberToNumber;
  }

  lemma IntegersTakeTheDetour(env: Env, k: Num, dst: Value, j: Num, src: Value)
    requires Sane(env) && HasType(dst, TNum(k)) && HasType(src, TNum(j)) && !k.IsFloat() && !j.IsFloat()
    ensures src.VInt? && InRange(j, src.n) && (k.IsSigned() || k.IsUnsigned())
    ensures Convert.Convert(env, TNum(k), dst, TNum(j), src)
            == Outcome(if j == k then src else VInt(Detour(env.floats, k, src.n)), None)
  {
    hide Sane, Convert.Convert, NumberToNumber, Detour;
    NumbersReachNumbers(env, k, dst, j, src);
    NumberDetour(env, k, dst, j, src);
  }

  lemma NumberDetour(env: Env, k: Num, dst: Value, j: Num, src: Value)
    requires HasType(dst, TNum(k)) && HasType(src, TNum(j)) && !k.IsFloat() && !j.IsFloat()
    ensures src.VInt? && NumberToNumber(env, k, dst, TNum(j), src) == Outcome(VInt(Detour(env.floats, k, src.n)), None)
  {
    hide IntOf, RoundF64, InRange;
  }

  // ----------------------------------------------------------------- pointers

  /** A type, and a value, behind a number of pointers. */
  function Pointers(t: GoType, n: nat): GoType { if n == 0 then t else TPtr(Pointers(t, n - 1)) }

  function Boxed(v: Value, n: nat): Value { if n == 0 then v else VPtr(Boxed(v, n - 1)) }

  lemma {:induction false} BoxedHasType(v: Value, t: GoType, n: nat)
    requires HasType(v, t)
    ensures HasType(Boxed(v, n), Pointers(t, n))
  {
    if n > 0 {
      BoxedHasType(v, t, n - 1);
    }
  }

  /** What a destination behind pointers holds: the first nil pointer on the way stands for zero
      values from there on. */
  function Inner(t: GoType, n: nat, dst: Value): (v: Value)
    requires HasType(dst, Pointers(t, n))
    ensures HasType(v, t)
  {
    if n == 0 then dst else Inner(t, n - 1, if dst.VPtr? then dst.target else Zero(Pointers(t, n - 1)))
  }

  lemma NilSource(env: Env, t: GoType, dst: Value, st: GoType)
    requires Sane(env) && HasType(dst, t) && st.TPtr?
    ensures Convert.Convert(env, t, dst, st, VNil) == Outcome(Zero(t), None)
  {
    hide Sane;
  }

  lemma OneSourcePointer(env: Env, t: GoType, dst: Value, st: GoType, target: Value)
    requires Sane(env) && HasType(dst, t) && HasType(target, st)
    ensures Convert.Convert(env, t, dst, TPtr(st), VPtr(target)) == Convert.Convert(env, t, dst, st, target)
  {
    hide Sane, Assignable, PgNull, LooksLikeJSON, ConvertSlice, ConvertArray, ConvertMap, ConvertStruct, ConvertAny,
      ConvertJSON, NumberToNumber, Fallback, Pointee;
  }

  lemma OneDestinationPointer(env: Env, t: GoType, dst: Value, st: GoType, src: Value)
    requires Sane(env) && HasType(dst, TPtr(t)) && HasType(src, st) && !st.TPtr?
    ensures !PgNull(st, src) ==>
              var r := Convert.Convert(env, t, Pointee(TPtr(t), dst), st, src);
              Convert.Convert(env, TPtr(t), dst, st, src) == Outcome(VPtr(r.dst), r.err)
    ensures PgNull(st, src) ==> Convert.Convert(env, TPtr(t), dst, st, src) == Outcome(VNil, None)
  {
    hide Sane, HasType, Assignable, PgNull, LooksLikeJSON, ConvertSlice;
    hide ConvertArray, ConvertMap, ConvertStruct, ConvertAny, ConvertJSON, NumberToNumber, Fallback, Pointee;
  }

  /** Pointers around the source make no difference. */
  lemma {:induction false} SourcePointers(env: Env, t: GoType, dst: Value, st: GoType, src: Value, n: nat)
    requires Sane(env) && HasType(dst, t) && HasType(src, st)
    ensures HasType(Boxed(src, n), Pointers(st, n))
    ensures Convert.Convert(env, t, dst, Pointers(st, n), Boxed(src, n)) == Convert.Convert(env, t, dst, st, src)
  {
    BoxedHasType(src, st, n);
    hide Convert.Convert, HasType, Sane;
    if n > 0 {
      BoxedHasType(src, st, n - 1);
      SourcePointers(env, t, dst, st, src, n - 1);
      OneSourcePointer(env, t, dst, Pointers(st, n - 1), Boxed(src, n - 1));
    }
  }

  /** A nil pointer behind any number of pointers zeroes a destination of any type. */
  lemma NilAtAnyDepth(env: Env, t: GoType, dst: Value, st: GoType, n: nat)
    requires Sane(env) && HasType(dst, t)
    ensures HasType(Boxed(VNil, n), Pointers(TPtr(st), n))
    ensures Convert.Convert(env, t, dst, Pointers(TPtr(st), n), Boxed(VNil, n)) == Outcome(Zero(t), None)
  {
    assert HasType(VNil, TPtr(st));
    hide *;
    SourcePointers(env, t, dst, TPtr(st), VNil, n);
    NilSource(env, t, dst, TPtr(st));
  }

  /** Pointers around the destination are followed, or made where they are nil, and the conversion
      takes place behind them; its error leaves them made. */
  lemma {:induction false} DestinationPointers(env: Env, t: GoType, n: nat, dst: Value, st: GoType, src: Value)
    requires Sane(env) && HasType(dst, Pointers(t, n)) && HasType(src, st) && !st.TPtr? && !PgNull(st, src)
    ensures var r := Convert.Convert(env, t, Inner(t, n, dst), st, src);
            Convert.Convert(env, Pointers(t, n), dst, st, src) == Outcome(Boxed(r.dst, n), r.err)
  {
    hide Convert.Convert, HasType, Sane, PgNull;
    if n > 0 {
      OneDestinationPointer(env, Pointers(t, n - 1), dst, st, src);
      DestinationPointers(env, t, n - 1, Pointee(Pointers(t, n), dst), st, src);
    }
  }

  // ------------------------------------------------------------------- slices

  /** Element number i is the first of a list that cannot be converted. */
  ghost predicate FirstBad(env: Env, t: GoType, st: GoType, src: Value, i: nat)
    requires Sane(env) && HasType(src, st) && IsList(st) && i < |Elements(src)|
  {
    && ElementOutcome(env, t, st, src, i).err.Some?
    && forall j :: 0 <= j < i ==> ElementOutcome(env, t, st, src, j).err.None?
  }

  lemma FirstBadIf(env: Env, t: GoType, st: GoType, src: Value, i: nat)
    requires Sane(env) && HasType(src, st) && IsList(st) && i < |Elements(src)|
    ensures FirstBad(env, t, st, src, i) ==> ElementOutcome(env, t, st, src, i).err.Some?
    ensures (forall j :: 0 <= j < i ==> ElementOutcome(env, t, st, src, j).err.None?)
            ==> (ElementOutcome(env, t, st, src, i).err.Some? ==> FirstBad(env, t, st, src, i))
  {
    hide ElementOutcome, HasType, Sane;
  }

  ghost predicate BrokenAt(env: Env, t: GoType, st: GoType, src: Value, n: nat, cause: Problem)
    requires Sane(env) && HasType(src, st) && IsList(st) && n <= |Elements(src)|
  {
    exists i :: 0 <= i < n && FirstBad(env, t, st, src, i)
                && cause == At(Index(i), ElementOutcome(env, t, st, src, i).err.value)
  }

  lemma {:induction false} ElementsAre(env: Env, t: GoType, st: GoType, src: Value, n: nat)
    requires Sane(env) && HasType(src, st) && t.TSlice? && IsList(st) && n <= |Elements(src)|
    ensures var b := ConvertElements(env, t, st, src, n);
            && (b.Built? ==> |b.parts| == n)
            && (b.Built? ==> forall i :: 0 <= i < n ==>
                 ElementOutcome(env, t.elem, st, src, i) == Outcome(b.parts[i], None))
            && (b.Broken? ==> BrokenAt(env, t.elem, st, src, n, b.cause))
  {
    hide *;
    if n == 0 {
      NoElements(env, t, st, src);
    } else {
      ElementsAre(env, t, st, src, n - 1);
      ElementStep(env, t, st, src, n - 1);
      FirstBadIf(env, t.elem, st, src, n - 1);
      BrokenAtMore(env, t.elem, st, src, n - 1);
    }
  }

  lemma BrokenAtMore(env: Env, t: GoType, st: GoType, src: Value, n: nat)
    requires Sane(env) && HasType(src, st) && IsList(st) && n < |Elements(src)|
    ensures forall cause :: BrokenAt(env, t, st, src, n, cause) ==> BrokenAt(env, t, st, src, n + 1, cause)
    ensures FirstBad(env, t, st, src, n)
            ==> BrokenAt(env, t, st, src, n + 1, At(Index(n), ElementOutcome(env, t, st, src, n).err.value))
  {
    hide ElementOutcome, HasType, Sane;
  }

  lemma BrokenAtFails(env: Env, t: GoType, st: GoType, src: Value, n: nat, cause: Problem)
    requires Sane(env) && HasType(src, st) && IsList(st) && n <= |Elements(src)|
    ensures BrokenAt(env, t, st, src, n, cause)
            ==> exists i :: 0 <= i < n && ElementOutcome(env, t, st, src, i).err.Some?
  {
    hide ElementOutcome, HasType, Sane;
  }

  /** A list becomes a slice of the same length with the elements converted in order, exactly when
      every element converts; otherwise the destination keeps what it had and the first element
      that failed is reported. */
  lemma SliceKeepsOrder(env: Env, t: GoType, dst: Value, st: GoType, src: Value)
    requires Sane(env) && HasType(dst, t) && HasType(src, st) && t.TSlice? && IsList(st)
    requires !Assignable(st, t) && !LooksLikeJSON(env, st, src)
    ensures var r, n := Convert.Convert(env, t, dst, st, src), |Elements(src)|;
            && (r.err.None? <==> forall i :: 0 <= i < n ==> ElementOutcome(env, t.elem, st, src, i).err.None?)
            && (r.err.None? ==> r.dst.VSeq? && |r.dst.elems| == n)
            && (r.err.None? ==> forall i :: 0 <= i < n ==>
                 r.dst.elems[i] == ElementOutcome(env, t.elem, st, src, i).dst)
            && (r.err.Some? ==> r.dst == dst && BrokenAt(env, t.elem, st, src, n, r.err.value))
  {
    ListsReachSlices(env, t, dst, st, src);
    hide *;
    var n := |Elements(src)|;
    ElementsAre(env, t, st, src, n);
    SliceCases(env, t, dst, st, src);
    var b := ConvertElements(env, t, st, src, n);
    if b.Broken? {
      BrokenAtFails(env, t.elem, st, src, n, b.cause);
    }
  }

  lemma ListsReachSlices(env: Env, t: GoType, dst: Value, st: GoType, src: Value)
    requires Sane(env) && HasType(dst, t) && HasType(src, st) && t.TSlice? && IsList(st)
    requires !Assignable(st, t) && !LooksLikeJSON(env, st, src)
    ensures Convert.Convert(env, t, dst, st, src) == ConvertSlice(env, t, dst, st, src)
  {
    hide ConvertSlice, HasType, Sane, LooksLikeJSON, Assignable;
  }

  // ------------------------------------------------------------------ structs

  /** What becomes of one field, on its own. */
  function FieldOutcome(env: Env, t: GoType, dst: Value, st: GoType, src: Value, i: nat): Outcome
    requires Sane(env) && HasType(dst, t) && HasType(src, st) && t.TStruct? && FillsStructs(st) && i < |t.fields|
  {
    var from := Filling(env, t.fields[i], st, src);
    if from.None? then Outcome(dst.fields[i], None)
    else Convert.Convert(env, t.fields[i].typ, dst.fields[i], from.value.0, from.value.1)
  }

  /** The first k fields of a struct hold their outcomes, the others what they held before. */
  ghost predicate FilledTo(env: Env, t: GoType, dst: Value, st: GoType, src: Value, v: Value, k: nat)
    requires Sane(env) && HasType(dst, t) && HasType(src, st) && t.TStruct? && FillsStructs(st) && k <= |t.fields|
  {
    && v.VStruct? && |v.fields| == |t.fields|
    && (forall i :: 0 <= i < k ==> v.fields[i] == FieldOutcome(env, t, dst, st, src, i).dst)
    && (forall i :: k <= i < |t.fields| ==> v.fields[i] == dst.fields[i])
  }

  ghost predicate AllFilled(env: Env, t: GoType, dst: Value, st: GoType, src: Value, k: nat)
    requires Sane(env) && HasType(dst, t) && HasType(src, st) && t.TStruct? && FillsStructs(st) && k <= |t.fields|
  {
    forall i :: 0 <= i < k ==> FieldOutcome(env, t, dst, st, src, i).err.None?
  }

  /** A conversion that stopped at field k. */
  ghost predicate StoppedAt(env: Env, t: GoType, dst: Value, st: GoType, src: Value, r: Outcome, k: nat)
    requires Sane(env) && HasType(dst, t) && HasType(src, st) && t.TStruct? && FillsStructs(st) && k < |t.fields|
  {
    var o := FieldOutcome(env, t, dst, st, src, k);
    && o.err.Some? && AllFilled(env, t, dst, st, src, k)
    && FilledTo(env, t, dst, st, src, r.dst, k + 1) && r.err == Some(At(FieldName(t.fields[k].name), o.err.value))
  }

  ghost predicate FieldsDone(env: Env, t: GoType, dst: Value, st: GoType, src: Value, r: Outcome, n: nat)
    requires Sane(env) && HasType(dst, t) && HasType(src, st) && t.TStruct? && FillsStructs(st) && n <= |t.fields|
  {
    if r.err.None? then AllFilled(env, t, dst, st, src, n) && FilledTo(env, t, dst, st, src, r.dst, n)
    else exists k :: 0 <= k < n && StoppedAt(env, t, dst, st, src, r, k)
  }

  /** On top of fields that do not include it, one more field gives its own outcome. */
  lemma NextFieldIs(env: Env, t: GoType, dst: Value, st: GoType, src: Value, b: Outcome, i: nat)
    requires Sane(env) && HasType(dst, t) && HasType(src, st) && t.TStruct? && FillsStructs(st) && i < |t.fields|
    requires HasType(b.dst, t) && b.err.None? && b.dst.VStruct? && i < |b.dst.fields|
    requires dst.VStruct? && |dst.fields| == |t.fields| && b.dst.fields[i] == dst.fields[i]
    ensures var o := FieldOutcome(env, t, dst, st, src, i);
            NextField(env, t, st, src, i, b)
            == Outcome(VStruct(b.dst.fields[i := o.dst]),
                       if o.err.Some? then Some(At(FieldName(t.fields[i].name), o.err.value)) else None)
  {
    NextFieldCases(env, t, st, src, i, b);
    hide HasType, Sane, Convert.Convert, Filling, NextField, FillsStructs;
    assert b.dst.fields[i := b.dst.fields[i]] == b.dst.fields;
  }

  lemma FilledMore(env: Env, t: GoType, dst: Value, st: GoType, src: Value, v: Value, i: nat)
    requires Sane(env) && HasType(dst, t) && HasType(src, st) && t.TStruct? && FillsStructs(st) && i < |t.fields|
    requires FilledTo(env, t, dst, st, src, v, i)
    ensures FilledTo(env, t, dst, st, src, VStruct(v.fields[i := FieldOutcome(env, t, dst, st, src, i).dst]), i + 1)
    ensures v.fields[i] == dst.fields[i]
  {
    hide HasType, Sane, FieldOutcome, FillsStructs;
  }

  lemma FieldsDoneMore(env: Env, t: GoType, dst: Value, st: GoType, src: Value, b: Outcome, i: nat)
    requires Sane(env) && HasType(dst, t) && HasType(src, st) && t.TStruct? && FillsStructs(st) && i < |t.fields|
    requires HasType(b.dst, t) && FieldsDone(env, t, dst, st, src, b, i)
    ensures FieldsDone(env, t, dst, st, src, NextField(env, t, st, src, i, b), i + 1)
  {
    StructShape(t, dst);
    hide HasType, Sane, NextField, FillsStructs, FieldOutcome, FilledTo;
    var r := NextField(env, t, st, src, i, b);
    if b.err.None? {
      FilledMore(env, t, dst, st, src, b.dst, i);
      StructShape(t, b.dst);
      NextFieldIs(env, t, dst, st, src, b, i);
      assert FieldOutcome(env, t, dst, st, src, i).err.Some? ==> StoppedAt(env, t, dst, st, src, r, i);
    }
  }

  lemma NothingFilled(env: Env, t: GoType, dst: Value, st: GoType, src: Value)
    requires Sane(env) && HasType(dst, t) && HasType(src, st) && t.TStruct? && FillsStructs(st)
    ensures FieldsDone(env, t, dst, st, src, ConvertFields(env, t, dst, st, src, 0), 0)
  {
    StructCases(env, t, dst, st, src);
    StructShape(t, dst);
    hide HasType, Sane, FieldOutcome, ConvertFields, ConvertStruct;
  }

  lemma {:induction false} FieldsAre(env: Env, t: GoType, dst: Value, st: GoType, src: Value, n: nat)
    requires Sane(env) && HasType(dst, t) && HasType(src, st) && t.TStruct? && FillsStructs(st) && n <= |t.fields|
    ensures FieldsDone(env, t, dst, st, src, ConvertFields(env, t, dst, st, src, n), n)
  {
    hide *;
    if n == 0 {
      NothingFilled(env, t, dst, st, src);
    } else {
      FieldsAre(env, t, dst, st, src, n - 1);
      FieldStep(env, t, dst, st, src, n - 1);
      FieldsDoneMore(env, t, dst, st, src, ConvertFields(env, t, dst, st, src, n - 1), n - 1);
    }
  }

  /** A struct is filled field by field in order: fields that nothing fills keep what they held,
      and the first field that fails stops the rest. */
  lemma StructFilledInOrder(env: Env, t: GoType, dst: Value, st: GoType, src: Value)
    requires Sane(env) && HasType(dst, t) && HasType(src, st) && t.TStruct? && FillsStructs(st) && !Assignable(st, t)
    ensures FieldsDone(env, t, dst, st, src, Convert.Convert(env, t, dst, st, src), |t.fields|)
  {
    StructsReachFields(env, t, dst, st, src);
    hide *;
    FieldsAre(env, t, dst, st, src, |t.fields|);
  }

  lemma StructsReachFields(env: Env, t: GoType, dst: Value, st: GoType, src: Value)
    requires Sane(env) && HasType(dst, t) && HasType(src, st) && t.TStruct? && FillsStructs(st) && !Assignable(st, t)
    ensures Convert.Convert(env, t, dst, st, src) == ConvertFields(env, t, dst, st, src, |t.fields|)
  {
    hide ConvertFields, HasType, Sane, Assignable;
  }

  // --------------------------------------------------------------------- maps

  lemma {:induction false} PutNew(entries: seq<Entry>, k: Value, v: Value)
    requires forall e :: e in entries ==> e.key != k
    ensures Put(entries, k, v) == entries + [Entry(k, v)]
  {
    if entries != [] {
      PutNew(entries[1..], k, v);
      assert entries == [entries[0]] + entries[1..];
    }
  }

  /** The entry that becomes of one entry of a map with string keys. */
  function EntryImage(env: Env, t: GoType, st: GoType, src: Value, i: nat): Entry
    requires Sane(env) && HasType(src, st) && st.TMap? && i < |Entries(src)|
  {
    Entry(Entries(src)[i].key, EntryOutcome(env, t, st, src, i).dst)
  }

  ghost predicate ImagesTo(env: Env, t: GoType, st: GoType, src: Value, parts: seq<Entry>, n: nat)
    requires Sane(env) && HasType(src, st) && st.TMap? && n <= |Entries(src)|
  {
    && |parts| == n
    && (forall i :: 0 <= i < n ==> EntryOutcome(env, t, st, src, i).err.None?)
    && (forall i :: 0 <= i < n ==> parts[i] == EntryImage(env, t, st, src, i))
  }

  lemma StringKeys(env: Env, st: GoType, src: Value)
    requires HasType(src, st) && st.TMap? && st.key.TString?
    ensures DistinctKeys(Entries(src))
    ensures forall i :: 0 <= i < |Entries(src)| ==>
              HasType(Entries(src)[i].key, st.key)
                && VString(KeyText(env, st.key, Entries(src)[i].key)) == Entries(src)[i].key
  {}

  lemma NewKey(env: Env, t: GoType, st: GoType, src: Value, parts: seq<Entry>, n: nat)
    requires Sane(env) && HasType(src, st) && st.TMap? && DistinctKeys(Entries(src)) && n < |Entries(src)|
    requires ImagesTo(env, t, st, src, parts, n)
    ensures forall p :: p in parts ==> p.key != Entries(src)[n].key
  {
    hide EntryOutcome, Sane, HasType, Entries;
    assert forall i :: 0 <= i < n ==> parts[i].key == Entries(src)[i].key;
  }

  lemma ImagesMore(env: Env, t: GoType, st: GoType, src: Value, parts: seq<Entry>, n: nat)
    requires Sane(env) && HasType(src, st) && st.TMap? && st.key.TString? && n < |Entries(src)|
    requires ImagesTo(env, t, st, src, parts, n) && EntryOutcome(env, t, st, src, n).err.None?
    ensures ImagesTo(env, t, st, src, Put(parts, Entries(src)[n].key, EntryOutcome(env, t, st, src, n).dst), n + 1)
  {
    StringKeys(env, st, src);
    hide EntryOutcome, Sane, HasType, Entries, Put;
    NewKey(env, t, st, src, parts, n);
    assert EntryImage(env, t, st, src, n) == Entry(Entries(src)[n].key, EntryOutcome(env, t, st, src, n).dst);
    hide EntryImage;
    PutNew(parts, Entries(src)[n].key, EntryOutcome(env, t, st, src, n).dst);
  }

  lemma NoImages(env: Env, t: GoType, st: GoType, src: Value)
    requires Sane(env) && HasType(src, st) && t.TMap? && st.TMap?
    ensures ConvertEntries(env, t, st, src, 0) == Built([]) && ImagesTo(env, t.elem, st, src, [], 0)
  {
    NoEntries(env, t, st, src);
    hide HasType, Sane, EntryOutcome, ConvertEntries;
  }

  lemma {:induction false} EntriesAre(env: Env, t: GoType, st: GoType, src: Value, n: nat)
    requires Sane(env) && HasType(src, st) && t.TMap? && st.TMap? && st.key.TString? && n <= |Entries(src)|
    ensures var b := ConvertEntries(env, t, st, src, n);
            && (b.Built? ==> ImagesTo(env, t.elem, st, src, b.parts, n))
            && (b.Broken? ==> exists i :: 0 <= i < n && EntryOutcome(env, t.elem, st, src, i).err.Some?)
  {
    hide *;
    if n == 0 {
      NoImages(env, t, st, src);
    } else {
      EntriesAre(env, t, st, src, n - 1);
      EntryStep(env, t, st, src, n - 1);
      var b := ConvertEntries(env, t, st, src, n - 1);
      if b.Built? && EntryOutcome(env, t.elem, st, src, n - 1).err.None? {
        StringKeys(env, st, src);
        ImagesMore(env, t.elem, st, src, b.parts, n - 1);
      }
    }
  }

  lemma MapsReachEntries(env: Env, t: GoType, dst: Value, st: GoType, src: Value)
    requires Sane(env) && HasType(dst, t) && HasType(src, st)
    requires t.TMap? && t.key.TString? && st.TMap? && !Assignable(st, t)
    ensures Convert.Convert(env, t, dst, st, src) == ConvertMap(env, t, dst, st, src)
  {
    hide ConvertMap, HasType, Sane, Assignable;
  }

  /** A map with string keys becomes one with the same keys and the values converted, exactly when
      every value converts, in whatever order the entries are visited. */
  lemma MapKeepsKeys(env: Env, t: GoType, dst: Value, st: GoType, src: Value)
    requires Sane(env) && HasType(dst, t) && HasType(src, st) && !Assignable(st, t)
    requires t.TMap? && t.key.TString? && st.TMap? && st.key.TString?
    ensures var r, n := Convert.Convert(env, t, dst, st, src), |Entries(src)|;
            && (r.err.None? <==> forall i :: 0 <= i < n ==> EntryOutcome(env, t.elem, st, src, i).err.None?)
            && (r.err.None? ==> r.dst.VMap? && ImagesTo(env, t.elem, st, src, r.dst.entries, n))
            && (r.err.Some? ==> r.dst == dst)
  {
    MapsReachEntries(env, t, dst, st, src);
    hide *;
    EntriesAre(env, t, st, src, |Entries(src)|);
    MapCases(env, t, dst, st, src);
    var b := ConvertEntries(env, t, st, src, |Entries(src)|);
    if b.Built? {
      ImagesConvert(env, t.elem, st, src, b.parts, |Entries(src)|);
    }
  }

  lemma ImagesConvert(env: Env, t: GoType, st: GoType, src: Value, parts: seq<Entry>, n: nat)
    requires Sane(env) && HasType(src, st) && st.TMap? && n <= |Entries(src)| && ImagesTo(env, t, st, src, parts, n)
    ensures forall i :: 0 <= i < n ==> EntryOutcome(env, t, st, src, i).err.None?
  {}

  // --------------------------------------------------------------- interfaces

  /** The destination types that take a value of interface type. */
  predicate TakesAny(t: GoType) {
    t.TAny? || t.TString? || ((t.TPtr? || t.TSlice?) && TakesAny(t.elem))
  }

  /** Whether a value of interface type can be converted depends on the destination type alone. */
  lemma {:induction false} AnyTaken(env: Env, t: GoType, dst: Value, src: Value)
    requires HasType(dst, t) && HasType(src, TAny)
    ensures ConvertAny(env, t, dst, src).err.None? <==> TakesAny(t)
    decreases t
  {
    if t.TPtr? {
      AnyTaken(env, t.elem, Pointee(t, dst), src);
    } else if t.TSlice? {
      AnyTaken(env, t.elem, Zero(t.elem), src);
    }
  }

  lemma NameTaken(env: Env, t: GoType, st: GoType, src: Value, nm: GoString)
    requires HasType(src, st) && st.TStruct? && FirstOwner(st.fields, nm).Some?
    ensures NameOutcome(env, t, st, src, nm).err.None? <==> TakesAny(t)
  {
    hide HasType, ConvertAny, TakesAny, FirstOwner, Interfaced;
    AnyTaken(env, t, Zero(t), Interfaced(st, src, FirstOwner(st.fields, nm).value));
  }

  ghost predicate NamesTo(env: Env, t: GoType, st: GoType, src: Value, order: seq<GoString>, parts: seq<Entry>, n: nat)
    requires HasType(src, st) && st.TStruct? && AreNames(order, st.fields) && n <= |order|
  {
    && |parts| == n
    && forall i :: 0 <= i < n ==> parts[i] == Entry(VString(order[i]), NameOutcome(env, t, st, src, order[i]).dst)
  }

  lemma NamesMore(env: Env, t: GoType, st: GoType, src: Value, order: seq<GoString>, parts: seq<Entry>, n: nat)
    requires HasType(src, st) && st.TStruct? && AreNames(order, st.fields) && n < |order|
    requires forall i, j :: 0 <= i < j < |order| ==> order[i] != order[j]
    requires NamesTo(env, t, st, src, order, parts, n)
    ensures NamesTo(env, t, st, src, order,
                    Put(parts, VString(order[n]), NameOutcome(env, t, st, src, order[n]).dst), n + 1)
  {
    hide NameOutcome, HasType, FirstOwner;
    assert forall p :: p in parts ==> p.key != VString(order[n]);
    PutNew(parts, VString(order[n]), NameOutcome(env, t, st, src, order[n]).dst);
  }

  lemma NothingNamed(env: Env, t: GoType, st: GoType, src: Value, order: seq<GoString>)
    requires HasType(src, st) && t.TMap? && st.TStruct? && AreNames(order, st.fields)
    ensures ConvertNamed(env, t, st, src, order, 0) == Built([]) && NamesTo(env, t.elem, st, src, order, [], 0)
  {
    hide HasType, NameOutcome, NextName;
  }

  lemma {:induction false} NamesAre(env: Env, t: GoType, st: GoType, src: Value, order: seq<GoString>, n: nat)
    requires HasType(src, st) && t.TMap? && st.TStruct? && AreNames(order, st.fields) && n <= |order|
    requires forall i, j :: 0 <= i < j < |order| ==> order[i] != order[j]
    ensures var b := ConvertNamed(env, t, st, src, order, n);
            && (b.Built? <==> n == 0 || TakesAny(t.elem))
            && (b.Built? ==> NamesTo(env, t.elem, st, src, order, b.parts, n))
  {
    hide *;
    if n == 0 {
      NothingNamed(env, t, st, src, order);
    } else {
      NamesAre(env, t, st, src, order, n - 1);
      NameStep(env, t, st, src, order, n - 1);
      NameTaken(env, t.elem, st, src, order[n - 1]);
      var b := ConvertNamed(env, t, st, src, order, n - 1);
      if b.Built? {
        NamesMore(env, t.elem, st, src, order, b.parts, n - 1);
      }
    }
  }

  /** A struct becomes a map exactly when the map's values can take interface values, whatever the
      fields are; every candidate name is then a key and holds the value of the first field that
      has the name. */
  lemma StructToMap(env: Env, t: GoType, dst: Value, st: GoType, src: Value)
    requires Sane(env) && HasType(dst, t) && HasType(src, st)
    requires t.TMap? && t.key.TString? && st.TStruct? && st.fields != []
    ensures var r, names := Convert.Convert(env, t, dst, st, src), NameOrder(env, st.fields);
            && (r.err.None? <==> TakesAny(t.elem))
            && (r.err.Some? ==> r.dst == dst)
            && (r.err.None? ==>
                  && r.dst.VMap?
                  && NamesTo(env, t.elem, st, src, names, r.dst.entries, |names|))
  {
    StructsReachNames(env, t, dst, st, src);
    SomeName(env, st.fields);
    hide *;
    var order := NameOrder(env, st.fields);
    NoNames(env, t, st, src);
    MapCases(env, t, dst, st, src);
    NamesAre(env, t, st, src, order, |order|);
  }

  lemma SomeName(env: Env, fields: seq<Field>)
    requires Sane(env) && fields != []
    ensures NameOrder(env, fields) != []
    ensures forall i, j :: 0 <= i < j < |NameOrder(env, fields)| ==>
              NameOrder(env, fields)[i] != NameOrder(env, fields)[j]
  {
    assert Owns(fields[0], fields[0].name) && fields[0] in fields;
    assert fields[0].name in AllNames(fields);
  }

  lemma StructsReachNames(env: Env, t: GoType, dst: Value, st: GoType, src: Value)
    requires Sane(env) && HasType(dst, t) && HasType(src, st) && t.TMap? && st.TStruct?
    ensures Convert.Convert(env, t, dst, st, src) == ConvertMap(env, t, dst, st, src)
  {
    hide ConvertMap, HasType, Sane;
  }

  /** A field is filled from a map of interface values only if its type takes interface values: the
      values are not unwrapped, so a field of any other type does not come back from map[string]any. */
  lemma NoStructFromAny(env: Env, t: GoType, dst: Value, elem: GoType, src: Value, i: nat)
    requires Sane(env) && HasType(dst, t) && HasType(src, TMap(TString, TAny)) && t.TStruct? && i < |t.fields|
    requires Filling(env, t.fields[i], TMap(TString, TAny), src).Some?
    ensures FieldOutcome(env, t, dst, TMap(TString, TAny), src, i).err.None? <==> TakesAny(t.fields[i].typ)
  {
    var from := Filling(env, t.fields[i], TMap(TString, TAny), src);
    AnyGoesToAny(env, t.fields[i].typ, dst.fields[i], from.value.1);
    AnyTaken(env, t.fields[i].typ, dst.fields[i], from.value.1);
  }

  lemma {:induction false} AnyGoesToAny(env: Env, t: GoType, dst: Value, src: Value)
    requires Sane(env) && HasType(dst, t) && HasType(src, TAny)
    ensures Convert.Convert(env, t, dst, TAny, src) == ConvertAny(env, t, dst, src)
    decreases t
  {
    hide Sane, HasType;
    if t.TPtr? {
      AnyGoesToAny(env, t.elem, Pointee(t, dst), src);
    }
  }
}
