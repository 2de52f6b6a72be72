/** The methods of copy/struct.go with their loops, each proved against the conversion function
    it computes. */
module Copier {
  import opened Text
  import opened GoTypes
  import opened Fields
  import opened Convert
  import opened ConvertSteps

  method ConvertAssign(env: Env, t: GoType, dst0: Value, srcType: GoType, src0: Value) returns (r: Outcome)
    requires Sane(env) && HasType(dst0, t) && HasType(src0, srcType)
    ensures r == Convert.Convert(env, t, dst0, srcType, src0)
    decreases src0, t, 2
  {
    hide Sane, HasType, ConvertSlice, ConvertArray, ConvertMap, ConvertStruct, NumberToNumber, Fallback;
    var st, src := srcType, src0;
    while st.TPtr?
      invariant HasType(src, st)
      invariant src == src0 || src < src0
      invariant Convert.Convert(env, t, dst0, srcType, src0) == Convert.Convert(env, t, dst0, st, src)
      decreases src
    {
      PointerTarget(st, src);
      if src.VNil? {
        return Outcome(Zero(t), None);
      }
      st, src := st.elem, src.target;
    }
    if t.TPtr? {
      if PgNull(st, src) {
        return Outcome(VNil, None);
      }
      var o := ConvertAssign(env, t.elem, Pointee(t, dst0), st, src);
      return Outcome(VPtr(o.dst), o.err);
    }
    if Assignable(st, t) {
      return Outcome(Stored(st, t, src), None);
    }
    if st.TAny? {
      return ConvertAny(env, t, dst0, src);
    }
    if (t.TStruct? || t.TMap? || t.TSlice?) && LooksLikeJSON(env, st, src) {
      return ConvertJSON(env, t, dst0, SourceText(st, src).value);
    }
    if t.TNum? && (st.TNum? || st.TString?) {
      return NumberToNumber(env, t.kind, dst0, st, src);
    }
    if t.TString? && IsBytes(st) {
      return Outcome(VString(SourceText(st, src).value), None);
    }
    if IsBytes(t) && st.TString? {
      return Outcome(VSeq(BytesOf(StringValue(st, src))), None);
    }
    if t.TSlice? {
      r := SliceConvert(env, t, dst0, st, src);
    } else if t.TArray? {
      r := ArrayConvert(env, t, dst0, st, src);
    } else if t.TMap? {
      r := MapConvert(env, t, dst0, st, src);
    } else if t.TStruct? {
      r := StructConvert(env, t, dst0, st, src);
    } else {
      r := Fallback(env, t, dst0, st, src);
    }
  }

  function StringValue(st: GoType, src: Value): GoString
    requires HasType(src, st) && st.TString?
  {
    src.s
  }

  method SliceFromList(env: Env, t: GoType, st: GoType, src: Value) returns (b: Built<Value>)
    requires Sane(env) && HasType(src, st) && t.TSlice? && IsList(st)
    ensures b == ConvertElements(env, t, st, src, |Elements(src)|)
    decreases src, t, 0
  {
    hide *;
    var elems := Elements(src);
    var out := [];
    NoElements(env, t, st, src);
    for i := 0 to |elems|
      invariant ConvertElements(env, t, st, src, i) == Built(out)
    {
      ElementStep(env, t, st, src, i);
      var o := ConvertAssign(env, t.elem, Zero(t.elem), st.elem, elems[i]);
      if o.err.Some? {
        BrokenStays(env, t, st, src, i + 1, |elems|);
        return Broken(At(Index(i), o.err.value));
      }
      out := out + [o.dst];
    }
    return Built(out);
  }

  method SliceConvert(env: Env, t: GoType, dst: Value, st: GoType, src: Value) returns (r: Outcome)
    requires Sane(env) && HasType(dst, t) && HasType(src, st) && t.TSlice?
    ensures r == ConvertSlice(env, t, dst, st, src)
    decreases src, t, 1
  {
    hide *;
    SliceCases(env, t, dst, st, src);
    if IsList(st) {
      var b := SliceFromList(env, t, st, src);
      r := if b.Built? then Outcome(VSeq(b.parts), None) else Outcome(dst, Some(b.cause));
    } else {
      var o := ConvertAssign(env, t.elem, Zero(t.elem), st, src);
      r := if o.err.Some? then Outcome(dst, o.err) else Outcome(VSeq([o.dst]), None);
    }
  }

  method ArrayConvert(env: Env, t: GoType, dst0: Value, st: GoType, src: Value) returns (r: Outcome)
    requires Sane(env) && HasType(dst0, t) && HasType(src, st) && t.TArray?
    ensures r == ConvertArray(env, t, dst0, st, src)
    decreases src, t, 0
  {
    hide *;
    ArrayCases(env, t, dst0, st, src);
    if !IsList(st) {
      return Outcome(dst0, Some(NotAnArray));
    }
    var elems := Elements(src);
    var n := if t.len < |elems| then t.len else |elems|;
    var dst := dst0;
    for i := 0 to n
      invariant ConvertInPlace(env, t, dst0, st, src, i) == Outcome(dst, None)
    {
      InPlaceStep(env, t, dst0, st, src, i);
      var o := ConvertAssign(env, t.elem, dst.elems[i], st.elem, elems[i]);
      dst := VSeq(dst.elems[i := o.dst]);
      if o.err.Some? {
        FailedStays(env, t, dst0, st, src, i + 1, n);
        return Outcome(dst, Some(At(Index(i), o.err.value)));
      }
    }
    return Outcome(dst, None);
  }

  method MapFromMap(env: Env, t: GoType, st: GoType, src: Value) returns (b: Built<Entry>)
    requires Sane(env) && HasType(src, st) && t.TMap? && st.TMap?
    ensures b == ConvertEntries(env, t, st, src, |Entries(src)|)
    decreases src, t, 0
  {
    hide *;
    var entries := Entries(src);
    var out := [];
    NoEntries(env, t, st, src);
    for i := 0 to |entries|
      invariant ConvertEntries(env, t, st, src, i) == Built(out)
    {
      EntryStep(env, t, st, src, i);
      var key := KeyText(env, st.key, entries[i].key);
      var o := ConvertAssign(env, t.elem, Zero(t.elem), st.elem, entries[i].val);
      if o.err.Some? {
        BrokenEntriesStay(env, t, st, src, i + 1, |entries|);
        return Broken(At(Key(key), o.err.value));
      }
      out := Put(out, VString(key), o.dst);
    }
    return Built(out);
  }

  lemma IndexedName(index: map<GoString, nat>, fields: seq<Field>, nm: GoString)
    requires Indexes(index, fields) && FirstOwner(fields, nm).Some?
    ensures nm in index && FirstOwner(fields, nm) == Some(index[nm])
  {}

  method MapFromStruct(env: Env, t: GoType, st: GoType, src: Value) returns (b: Built<Entry>)
    requires Sane(env) && HasType(src, st) && t.TMap? && st.TStruct?
    ensures b == FromStruct(env, t, st, src)
  {
    hide *;
    var index := IndexStructFields(st.fields);
    var order := NameOrder(env, st.fields);
    var out := [];
    NoNames(env, t, st, src);
    for i := 0 to |order|
      invariant ConvertNamed(env, t, st, src, order, i) == Built(out)
    {
      NameStep(env, t, st, src, order, i);
      IndexedName(index, st.fields, order[i]);
      var o := ConvertAny(env, t.elem, Zero(t.elem), Interfaced(st, src, index[order[i]]));
      if o.err.Some? {
        BrokenNamesStay(env, t, st, src, order, i + 1, |order|);
        return Broken(o.err.value);
      }
      out := Put(out, VString(order[i]), o.dst);
    }
    return Built(out);
  }

  method MapConvert(env: Env, t: GoType, dst: Value, st: GoType, src: Value) returns (r: Outcome)
    requires Sane(env) && HasType(dst, t) && HasType(src, st) && t.TMap?
    ensures r == ConvertMap(env, t, dst, st, src)
    decreases src, t, 1
  {
    hide *;
    MapCases(env, t, dst, st, src);
    if !t.key.TString? {
      return Outcome(dst, Some(OnlyStringKeys));
    }
    var b;
    if st.TMap? {
      b := MapFromMap(env, t, st, src);
    } else if st.TStruct? {
      b := MapFromStruct(env, t, st, src);
    } else {
      return Outcome(dst, Some(NotAMap));
    }
    return if b.Broken? then Outcome(dst, Some(b.cause)) else Outcome(VMap(b.parts), None);
  }

  /** The two nested loops over keys and candidate names. */
  method FindFolded(env: Env, entries: seq<Entry>, names: seq<GoString>) returns (r: Option<nat>)
    ensures r == FoldedEntry(env, entries, names)
  {
    for i := 0 to |entries|
      invariant forall j :: 0 <= j < i ==> !Folds(env, entries[j], names)
    {
      if entries[i].key.VString? {
        for k := 0 to |names|
          invariant forall nm :: nm in names[..k] ==> !env.equalFold(entries[i].key.s, nm)
        {
          if env.equalFold(entries[i].key.s, names[k]) {
            assert Folds(env, entries[i], names);
            return Some(i);
          }
        }
        assert names[..|names|] == names;
      }
    }
    return None;
  }

  /** What fills a field, through the index for a struct and by search for a map. */
  method FindFilling(env: Env, f: Field, st: GoType, src: Value, index: map<GoString, nat>)
    returns (from: Option<(GoType, Value)>)
    requires HasType(src, st) && FillsStructs(st)
    requires st.TStruct? ==> Indexes(index, st.fields)
    ensures from == Filling(env, f, st, src)
  {
    hide Sane, FoldedEntry, SourceOf;
    if st.TStruct? {
      var k := FindSource(index, st.fields, f);
      from := if k.Some? then Some((st.fields[k.value].typ, src.fields[k.value])) else None;
    } else {
      var k := FindFolded(env, Entries(src), FieldNames(f));
      from := if k.Some? then Some((st.elem, Entries(src)[k.value].val)) else None;
    }
  }

  method StructConvert(env: Env, t: GoType, dst0: Value, st: GoType, src: Value) returns (r: Outcome)
    requires Sane(env) && HasType(dst0, t) && HasType(src, st) && t.TStruct?
    ensures r == ConvertStruct(env, t, dst0, st, src)
    decreases src, t, 0
  {
    hide *;
    StructCases(env, t, dst0, st, src);
    if !FillsStructs(st) {
      return Outcome(dst0, Some(NotAStruct));
    }
    var index := map[];
    if st.TStruct? {
      index := IndexStructFields(st.fields);
    }
    var dst := dst0;
    for i := 0 to |t.fields|
      invariant HasType(dst, t) && ConvertFields(env, t, dst0, st, src, i) == Outcome(dst, None)
    {
      FieldStep(env, t, dst0, st, src, i);
      NextFieldCases(env, t, st, src, i, Outcome(dst, None));
      var f := t.fields[i];
      var from := FindFilling(env, f, st, src, index);
      if from.Some? {
        var o := ConvertAssign(env, f.typ, dst.fields[i], from.value.0, from.value.1);
        dst := VStruct(dst.fields[i := o.dst]);
        if o.err.Some? {
          FieldFailureStays(env, t, dst0, st, src, i + 1, |t.fields|);
          return Outcome(dst, Some(At(FieldName(f.name), o.err.value)));
        }
      }
    }
    return Outcome(dst, None);
  }
}
