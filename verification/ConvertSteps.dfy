/** The recursion of the conversion function unfolded one step at a time: which rule applies to a
    destination type, and what one more element, entry, name or field adds. */
module ConvertSteps {
  import opened Text
  import opened GoTypes
  import opened Fields
  import opened Convert

  lemma PointerTarget(st: GoType, src: Value)
    requires HasType(src, st)
    ensures st.TPtr? ==> src.VNil? || (src.VPtr? && HasType(src.target, st.elem))
  {}

  // ------------------------------------------------------------------- slices

  lemma SliceCases(env: Env, t: GoType, dst: Value, st: GoType, src: Value)
    requires Sane(env) && HasType(dst, t) && HasType(src, st) && t.TSlice?
    ensures IsList(st) ==>
              var b := ConvertElements(env, t, st, src, |Elements(src)|);
              ConvertSlice(env, t, dst, st, src)
              == if b.Built? then Outcome(VSeq(b.parts), None) else Outcome(dst, Some(b.cause))
    ensures !IsList(st) ==>
              var o := Convert.Convert(env, t.elem, Zero(t.elem), st, src);
              ConvertSlice(env, t, dst, st, src)
              == if o.err.Some? then Outcome(dst, o.err) else Outcome(VSeq([o.dst]), None)
  {
    hide Sane, Convert.Convert, HasType, ConvertElements;
  }

  /** What becomes of one element of a list. */
  function ElementOutcome(env: Env, t: GoType, st: GoType, src: Value, i: nat): (r: Outcome)
    requires Sane(env) && HasType(src, st) && IsList(st) && i < |Elements(src)|
    ensures HasType(r.dst, t)
  {
    Convert.Convert(env, t, Zero(t), st.elem, Elements(src)[i])
  }

  lemma ElementStep(env: Env, t: GoType, st: GoType, src: Value, i: nat)
    requires Sane(env) && HasType(src, st) && t.TSlice? && IsList(st) && i < |Elements(src)|
    ensures st.TSlice? || st.TArray?
    ensures HasType(Elements(src)[i], st.elem) && Elements(src)[i] < src
    ensures Convert.Convert(env, t.elem, Zero(t.elem), st.elem, Elements(src)[i])
              == ElementOutcome(env, t.elem, st, src, i)
    ensures var b, o := ConvertElements(env, t, st, src, i), ElementOutcome(env, t.elem, st, src, i);
            ConvertElements(env, t, st, src, i + 1)
            == if b.Broken? then b
               else if o.err.Some? then Broken(At(Index(i), o.err.value))
               else Built(b.parts + [o.dst])
  {
    hide Sane, Convert.Convert;
  }

  lemma NoElements(env: Env, t: GoType, st: GoType, src: Value)
    requires Sane(env) && HasType(src, st) && t.TSlice? && IsList(st)
    ensures ConvertElements(env, t, st, src, 0) == Built([])
  {}

  /** Once failed, the loop stays failed; the same holds of the loops below. */
  lemma {:induction false} BrokenStays(env: Env, t: GoType, st: GoType, src: Value, i: nat, n: nat)
    requires Sane(env) && HasType(src, st) && t.TSlice? && IsList(st) && i <= n <= |Elements(src)|
    requires ConvertElements(env, t, st, src, i).Broken?
    ensures ConvertElements(env, t, st, src, n) == ConvertElements(env, t, st, src, i)
  {
    hide *;
    if i < n {
      BrokenStays(env, t, st, src, i, n - 1);
      ElementStep(env, t, st, src, n - 1);
    }
  }

  // ------------------------------------------------------------------- arrays

  lemma ArrayCases(env: Env, t: GoType, dst: Value, st: GoType, src: Value)
    requires Sane(env) && HasType(dst, t) && HasType(src, st) && t.TArray?
    ensures !IsList(st) ==> ConvertArray(env, t, dst, st, src) == Outcome(dst, Some(NotAnArray))
    ensures IsList(st) ==>
              var n := if t.len < |Elements(src)| then t.len else |Elements(src)|;
              && ConvertArray(env, t, dst, st, src) == ConvertInPlace(env, t, dst, st, src, n)
              && ConvertInPlace(env, t, dst, st, src, 0) == Outcome(dst, None)
  {
    hide Sane, HasType, NextInPlace;
  }

  lemma ArrayShape(t: GoType, dst: Value)
    requires t.TArray? && HasType(dst, t)
    ensures dst.VSeq? && |dst.elems| == t.len && forall i :: 0 <= i < t.len ==> HasType(dst.elems[i], t.elem)
  {}

  lemma InPlaceStep(env: Env, t: GoType, dst: Value, st: GoType, src: Value, i: nat)
    requires Sane(env) && HasType(dst, t) && HasType(src, st) && t.TArray? && IsList(st)
    requires i < |Elements(src)| && i < t.len
    ensures st.TSlice? || st.TArray?
    ensures HasType(Elements(src)[i], st.elem) && Elements(src)[i] < src
    ensures var b := ConvertInPlace(env, t, dst, st, src, i);
            b.dst.VSeq? && |b.dst.elems| == t.len && HasType(b.dst.elems[i], t.elem)
    ensures var b := ConvertInPlace(env, t, dst, st, src, i);
            var o := Convert.Convert(env, t.elem, b.dst.elems[i], st.elem, Elements(src)[i]);
            ConvertInPlace(env, t, dst, st, src, i + 1)
            == if b.err.Some? then b
               else Outcome(VSeq(b.dst.elems[i := o.dst]),
                            if o.err.Some? then Some(At(Index(i), o.err.value)) else None)
  {
    hide Sane, Convert.Convert;
    ArrayShape(t, ConvertInPlace(env, t, dst, st, src, i).dst);
  }

  lemma {:induction false} FailedStays(env: Env, t: GoType, dst: Value, st: GoType, src: Value, i: nat, n: nat)
    requires Sane(env) && HasType(dst, t) && HasType(src, st) && t.TArray? && IsList(st)
    requires i <= n <= |Elements(src)| && n <= t.len
    requires ConvertInPlace(env, t, dst, st, src, i).err.Some?
    ensures ConvertInPlace(env, t, dst, st, src, n) == ConvertInPlace(env, t, dst, st, src, i)
  {
    hide *;
    if i < n {
      FailedStays(env, t, dst, st, src, i, n - 1);
      InPlaceStep(env, t, dst, st, src, n - 1);
    }
  }

  // --------------------------------------------------------------------- maps

  lemma MapCases(env: Env, t: GoType, dst: Value, st: GoType, src: Value)
    requires Sane(env) && HasType(dst, t) && HasType(src, st) && t.TMap?
    ensures !t.key.TString? ==> ConvertMap(env, t, dst, st, src) == Outcome(dst, Some(OnlyStringKeys))
    ensures t.key.TString? && !st.TMap? && !st.TStruct? ==>
              ConvertMap(env, t, dst, st, src) == Outcome(dst, Some(NotAMap))
    ensures t.key.TString? && (st.TMap? || st.TStruct?) ==>
              var b := if st.TMap? then ConvertEntries(env, t, st, src, |Entries(src)|)
                       else FromStruct(env, t, st, src);
              ConvertMap(env, t, dst, st, src)
              == if b.Broken? then Outcome(dst, Some(b.cause)) else Outcome(VMap(b.parts), None)
  {
    hide Sane, HasType, ConvertEntries, FromStruct;
  }

  /** What becomes of the value of one entry. */
  function EntryOutcome(env: Env, t: GoType, st: GoType, src: Value, i: nat): (r: Outcome)
    requires Sane(env) && HasType(src, st) && st.TMap? && i < |Entries(src)|
    ensures HasType(r.dst, t)
  {
    Convert.Convert(env, t, Zero(t), st.elem, Entries(src)[i].val)
  }

  lemma EntryStep(env: Env, t: GoType, st: GoType, src: Value, i: nat)
    requires Sane(env) && HasType(src, st) && t.TMap? && st.TMap? && i < |Entries(src)|
    ensures HasType(Entries(src)[i].key, st.key) && HasType(Entries(src)[i].val, st.elem) && Entries(src)[i].val < src
    ensures Convert.Convert(env, t.elem, Zero(t.elem), st.elem, Entries(src)[i].val)
              == EntryOutcome(env, t.elem, st, src, i)
    ensures var b, o := ConvertEntries(env, t, st, src, i), EntryOutcome(env, t.elem, st, src, i);
            var key := KeyText(env, st.key, Entries(src)[i].key);
            ConvertEntries(env, t, st, src, i + 1)
            == if b.Broken? then b
               else if o.err.Some? then Broken(At(Key(key), o.err.value))
               else Built(Put(b.parts, VString(key), o.dst))
  {
    hide Sane, Convert.Convert, Put;
  }

  lemma NoEntries(env: Env, t: GoType, st: GoType, src: Value)
    requires Sane(env) && HasType(src, st) && t.TMap? && st.TMap?
    ensures ConvertEntries(env, t, st, src, 0) == Built([])
  {}

  lemma {:induction false} BrokenEntriesStay(env: Env, t: GoType, st: GoType, src: Value, i: nat, n: nat)
    requires Sane(env) && HasType(src, st) && t.TMap? && st.TMap? && i <= n <= |Entries(src)|
    requires ConvertEntries(env, t, st, src, i).Broken?
    ensures ConvertEntries(env, t, st, src, n) == ConvertEntries(env, t, st, src, i)
  {
    hide *;
    if i < n {
      BrokenEntriesStay(env, t, st, src, i, n - 1);
      EntryStep(env, t, st, src, n - 1);
    }
  }

  /** What becomes of the field that a name of a struct stands for. */
  function NameOutcome(env: Env, t: GoType, st: GoType, src: Value, nm: GoString): (r: Outcome)
    requires HasType(src, st) && st.TStruct? && FirstOwner(st.fields, nm).Some?
    ensures HasType(r.dst, t)
  {
    ConvertAny(env, t, Zero(t), Interfaced(st, src, FirstOwner(st.fields, nm).value))
  }

  lemma NameStep(env: Env, t: GoType, st: GoType, src: Value, order: seq<GoString>, i: nat)
    requires HasType(src, st) && t.TMap? && st.TStruct? && AreNames(order, st.fields) && i < |order|
    ensures FirstOwner(st.fields, order[i]).Some?
    ensures ConvertAny(env, t.elem, Zero(t.elem), Interfaced(st, src, FirstOwner(st.fields, order[i]).value))
            == NameOutcome(env, t.elem, st, src, order[i])
    ensures var b, o := ConvertNamed(env, t, st, src, order, i), NameOutcome(env, t.elem, st, src, order[i]);
            ConvertNamed(env, t, st, src, order, i + 1)
            == if b.Broken? then b
               else if o.err.Some? then Broken(o.err.value)
               else Built(Put(b.parts, VString(order[i]), o.dst))
  {
    hide ConvertAny, Put, HasType, FieldNames;
    assert FirstOwner(st.fields, order[i]).Some?;
    hide FirstOwner;
  }

  lemma NoNames(env: Env, t: GoType, st: GoType, src: Value)
    requires Sane(env) && HasType(src, st) && t.TMap? && st.TStruct?
    ensures var order := NameOrder(env, st.fields);
            && ConvertNamed(env, t, st, src, order, 0) == Built([])
            && FromStruct(env, t, st, src) == ConvertNamed(env, t, st, src, order, |order|)
  {
    hide Sane, NextName;
  }

  lemma {:induction false} BrokenNamesStay(
    env: Env, t: GoType, st: GoType, src: Value, order: seq<GoString>, i: nat, n: nat)
    requires HasType(src, st) && t.TMap? && st.TStruct? && AreNames(order, st.fields) && i <= n <= |order|
    requires ConvertNamed(env, t, st, src, order, i).Broken?
    ensures ConvertNamed(env, t, st, src, order, n) == ConvertNamed(env, t, st, src, order, i)
  {
    hide *;
    if i < n {
      BrokenNamesStay(env, t, st, src, order, i, n - 1);
      NameStep(env, t, st, src, order, n - 1);
    }
  }

  // ------------------------------------------------------------------ structs

  lemma StructCases(env: Env, t: GoType, dst: Value, st: GoType, src: Value)
    requires Sane(env) && HasType(dst, t) && HasType(src, st) && t.TStruct?
    ensures !FillsStructs(st) ==> ConvertStruct(env, t, dst, st, src) == Outcome(dst, Some(NotAStruct))
    ensures FillsStructs(st) ==>
              && ConvertStruct(env, t, dst, st, src) == ConvertFields(env, t, dst, st, src, |t.fields|)
              && ConvertFields(env, t, dst, st, src, 0) == Outcome(dst, None)
  {
    hide Sane, HasType, NextField;
  }

  lemma StructShape(t: GoType, dst: Value)
    requires t.TStruct? && HasType(dst, t)
    ensures dst.VStruct? && |dst.fields| == |t.fields|
    ensures forall i :: 0 <= i < |t.fields| ==> HasType(dst.fields[i], t.fields[i].typ)
  {}

  lemma NextFieldCases(env: Env, t: GoType, st: GoType, src: Value, i: nat, b: Outcome)
    requires Sane(env) && HasType(b.dst, t) && HasType(src, st) && t.TStruct? && i < |t.fields| && FillsStructs(st)
    ensures b.dst.VStruct? && |b.dst.fields| == |t.fields| && HasType(b.dst.fields[i], t.fields[i].typ)
    ensures var from := Filling(env, t.fields[i], st, src);
            && (b.err.Some? || from.None? ==> NextField(env, t, st, src, i, b) == b)
            && (b.err.None? && from.Some? ==>
                  var o := Convert.Convert(env, t.fields[i].typ, b.dst.fields[i], from.value.0, from.value.1);
                  NextField(env, t, st, src, i, b)
                  == Outcome(VStruct(b.dst.fields[i := o.dst]),
                             if o.err.Some? then Some(At(FieldName(t.fields[i].name), o.err.value)) else None))
  {
    hide Sane, Convert.Convert, Filling;
  }

  lemma FieldStep(env: Env, t: GoType, dst: Value, st: GoType, src: Value, i: nat)
    requires Sane(env) && HasType(dst, t) && HasType(src, st) && t.TStruct? && i < |t.fields| && FillsStructs(st)
    ensures ConvertFields(env, t, dst, st, src, i + 1)
              == NextField(env, t, st, src, i, ConvertFields(env, t, dst, st, src, i))
  {
    hide Sane, HasType, NextField;
  }

  lemma {:induction false} FieldFailureStays(env: Env, t: GoType, dst: Value, st: GoType, src: Value, i: nat, n: nat)
    requires Sane(env) && HasType(dst, t) && HasType(src, st) && t.TStruct? && i <= n <= |t.fields|
    requires FillsStructs(st)
    requires ConvertFields(env, t, dst, st, src, i).err.Some?
    ensures ConvertFields(env, t, dst, st, src, n) == ConvertFields(env, t, dst, st, src, i)
  {
    hide *;
    if i < n {
      FieldFailureStays(env, t, dst, st, src, i, n - 1);
      FieldStep(env, t, dst, st, src, n - 1);
    }
  }
}
