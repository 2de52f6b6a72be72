/** Which values survive a conversion to another type and back. */
module RoundTrip {
  import opened Text
  import opened Numbers
  import opened GoTypes
  import opened Fields
  import opened Convert
  import opened ConvertSteps
  import opened ConvertMeaning

  /** Each field of two structs is filled from a field of the other, the same one both ways. */
  ghost predicate Mutual(fs: seq<Field>, gs: seq<Field>) {
    && (forall j :: 0 <= j < |gs| ==>
         SourceOf(fs, gs[j]).Some? && SourceOf(gs, fs[SourceOf(fs, gs[j]).value]) == Some(j))
    && (forall i :: 0 <= i < |fs| ==>
         SourceOf(gs, fs[i]).Some? && SourceOf(fs, gs[SourceOf(gs, fs[i]).value]) == Some(i))
  }

  /** A type whose values cannot be taken for a null of package pgtype. */
  predicate NoNulls(t: GoType) {
    t.TStruct? && FieldNamed(t.fields, "Valid").Some? ==> !t.fields[FieldNamed(t.fields, "Valid").value].typ.TBool?
  }

  /** A floating point number that a kind holds. */
  ghost predicate Represents(k: Num, f: Float) { k.F32? ==> IsFloat32(f) }

  /** A number that a conversion to another kind keeps: an integer that float64 and the kind hold, or
      a floating point number that the kind holds. */
  ghost predicate LosslessNumber(s: Num, t: Num, v: Value)
    requires HasType(v, TNum(s))
  {
    if !s.IsFloat() then
      Abs(v.n) <= MANTISSA && if t.IsFloat() then Represents(t, Fin(v.n as real)) else InRange(t, v.n)
    else
      Represents(s, v.f)
      && if t.IsFloat() then Represents(t, v.f) else v.f.Fin? && WholeNumber(v.f.x) && Held(t, Trunc(v.f.x))
  }

  predicate WholeNumber(x: real) { x == Trunc(x) as real }

  /** An integer that float64 and a kind both hold. */
  predicate Held(t: Num, n: int) { Abs(n) <= MANTISSA && InRange(t, n) }

  ghost function ImageNumber(s: Num, t: Num, v: Value): Value
    requires HasType(v, TNum(s)) && LosslessNumber(s, t, v)
  {
    if s.IsFloat() == t.IsFloat() then v else if t.IsFloat() then VFloat(Fin(v.n as real)) else VInt(Trunc(v.f.x))
  }

  predicate Bare(t: GoType) { !t.TPtr? }

  /** The type behind all pointers, and the value behind them where no nil is in the way. */
  function Pointed(t: GoType): (r: GoType)
    ensures Bare(r)
  {
    if t.TPtr? then Pointed(t.elem) else t
  }

  predicate Unbroken(t: GoType, v: Value) { t.TPtr? ==> v.VPtr? && Unbroken(t.elem, v.target) }

  function Followed(t: GoType, v: Value): (r: Value)
    requires HasType(v, t) && Unbroken(t, v)
    ensures HasType(r, Pointed(t)) && (r == v || r < v)
  {
    if t.TPtr? then Followed(t.elem, v.target) else v
  }

  /** A value behind as many pointers as a type has. */
  function Wrapped(t: GoType, v: Value): Value { if t.TPtr? then VPtr(Wrapped(t.elem, v)) else v }

  /** The values of a type that a conversion to another type keeps whole: equal types, numbers that
      the other kind holds (integers within 2^53), strings and byte slices, lists, maps with string
      keys and structs of such values, each possibly behind pointers, as many on either side. */
  ghost predicate Lossless(s: GoType, t: GoType, v: Value)
    requires HasType(v, s)
    decreases v, 3
  {
    if s.TPtr? && v.VNil? then t.TPtr?
    else
      && Unbroken(s, v)
      && (s.TPtr? || t.TPtr? ==> NoNulls(Pointed(s)) && NoNulls(Pointed(t)))
      && LosslessBare(Pointed(s), Pointed(t), Followed(s, v))
  }

  ghost predicate LosslessBare(s: GoType, t: GoType, v: Value)
    requires HasType(v, s)
    decreases v, 2
  {
    if Assignable(s, t) then Assignable(t, s)
    else if s.TNum? && t.TNum? then LosslessNumber(s.kind, t.kind, v)
    else if s.TString? || t.TString? then IsBytes(t) || (IsBytes(s) && v.VSeq?)
    else if IsList(s) && IsList(t) then LosslessList(s, t, v)
    else if s.TMap? && t.TMap? then LosslessMap(s, t, v)
    else s.TStruct? && t.TStruct? && LosslessStruct(s, t, v)
  }

  ghost predicate LosslessList(s: GoType, t: GoType, v: Value)
    requires IsList(s) && IsList(t)
    decreases v, 1
  {
    && v.VSeq? && !IsBytes(s) && !IsBytes(t) && (t.TArray? ==> |v.elems| == t.len)
    && forall i :: 0 <= i < |v.elems| ==> ElementLossless(s, t, v, i)
  }

  ghost predicate ElementLossless(s: GoType, t: GoType, v: Value, i: nat)
    requires IsList(s) && IsList(t)
    decreases v, 0
  {
    v.VSeq? && i < |v.elems| && HasType(v.elems[i], s.elem) && Lossless(s.elem, t.elem, v.elems[i])
  }

  ghost predicate LosslessMap(s: GoType, t: GoType, v: Value)
    requires s.TMap? && t.TMap?
    decreases v, 1
  {
    && v.VMap? && s.key.TString? && t.key.TString?
    && forall i :: 0 <= i < |v.entries| ==> ValueLossless(s, t, v, i)
  }

  ghost predicate ValueLossless(s: GoType, t: GoType, v: Value, i: nat)
    requires s.TMap? && t.TMap?
    decreases v, 0
  {
    v.VMap? && i < |v.entries| && HasType(v.entries[i].val, s.elem) && Lossless(s.elem, t.elem, v.entries[i].val)
  }

  ghost predicate LosslessStruct(s: GoType, t: GoType, v: Value)
    requires s.TStruct? && t.TStruct?
    decreases v, 1
  {
    && Mutual(s.fields, t.fields)
    && forall i :: 0 <= i < |s.fields| ==> FieldLossless(s, t, v, i, SourceOf(t.fields, s.fields[i]).value)
  }

  /** Field i of a struct value is lossless as field j of another struct. */
  ghost predicate FieldLossless(s: GoType, t: GoType, v: Value, i: nat, j: nat)
    requires s.TStruct? && t.TStruct?
    decreases v, 0
  {
    && v.VStruct? && i < |v.fields| && i < |s.fields| && j < |t.fields|
    && HasType(v.fields[i], s.fields[i].typ) && Lossless(s.fields[i].typ, t.fields[j].typ, v.fields[i])
  }

  /** What such a value is in the other type. */
  ghost function Image(s: GoType, t: GoType, v: Value): Value
    requires HasType(v, s) && Lossless(s, t, v)
    decreases v, 3
  {
    if s.TPtr? && v.VNil? then VNil
    else
      Wrapped(t, ImageBare(Pointed(s), Pointed(t), Followed(s, v)))
  }

  ghost function ImageBare(s: GoType, t: GoType, v: Value): Value
    requires HasType(v, s) && LosslessBare(s, t, v)
    decreases v, 2
  {
    if Assignable(s, t) then v
    else if s.TNum? && t.TNum? then ImageNumber(s.kind, t.kind, v)
    else if s.TString? || t.TString? then
      if IsBytes(t) then VSeq(BytesOf(v.s)) else VString(SourceText(s, v).value)
    else if IsList(s) && IsList(t) then VSeq(ImageList(s, t, v))
    else if s.TMap? && t.TMap? then VMap(ImageMap(s, t, v))
    else VStruct(ImageStruct(s, t, v))
  }

  ghost function ImageList(s: GoType, t: GoType, v: Value): (r: seq<Value>)
    requires IsList(s) && IsList(t) && LosslessList(s, t, v)
    ensures |r| == |v.elems|
    decreases v, 1
  {
    seq(|v.elems|,
        i requires 0 <= i < |v.elems| => assert ElementLossless(s, t, v, i); Image(s.elem, t.elem, v.elems[i]))
  }

  ghost function ImageMap(s: GoType, t: GoType, v: Value): (r: seq<Entry>)
    requires s.TMap? && t.TMap? && LosslessMap(s, t, v)
    ensures |r| == |v.entries|
    decreases v, 1
  {
    seq(|v.entries|, i requires 0 <= i < |v.entries| =>
      assert ValueLossless(s, t, v, i);
      Entry(v.entries[i].key, Image(s.elem, t.elem, v.entries[i].val)))
  }

  ghost function ImageStruct(s: GoType, t: GoType, v: Value): (r: seq<Value>)
    requires s.TStruct? && t.TStruct? && LosslessStruct(s, t, v)
    ensures |r| == |t.fields|
    decreases v, 1
  {
    seq(|t.fields|, j requires 0 <= j < |t.fields| =>
      FilledFrom(s, t, v, j);
      FieldImage(s, t, v, SourceOf(s.fields, t.fields[j]).value, j))
  }

  ghost function FieldImage(s: GoType, t: GoType, v: Value, i: nat, j: nat): Value
    requires s.TStruct? && t.TStruct? && FieldLossless(s, t, v, i, j)
    decreases v, 0
  {
    Image(s.fields[i].typ, t.fields[j].typ, v.fields[i])
  }

  lemma FilledFrom(s: GoType, t: GoType, v: Value, j: nat)
    requires s.TStruct? && t.TStruct? && LosslessStruct(s, t, v) && j < |t.fields|
    ensures var i := SourceOf(s.fields, t.fields[j]);
            i.Some? && i.value < |s.fields| && SourceOf(t.fields, s.fields[i.value]) == Some(j)
              && FieldLossless(s, t, v, i.value, j)
  {
    hide SourceOf, FieldLossless;
  }

  /** The four kinds of lossless value. */
  lemma BareCases(s: GoType, t: GoType, v: Value)
    requires HasType(v, s) && LosslessBare(s, t, v)
    ensures Assignable(s, t) ==> Assignable(t, s) && ImageBare(s, t, v) == v
    ensures !Assignable(s, t) ==>
              || (s.TNum? && t.TNum? && s != t)
              || ((s.TString? || t.TString?) && !(s.TNum? && t.TNum?) && !s.TMap? && !s.TStruct?)
              || (s.TMap? && t.TMap? && LosslessMap(s, t, v) && ImageBare(s, t, v) == VMap(ImageMap(s, t, v)))
              || (s.TStruct? && t.TStruct? && LosslessStruct(s, t, v)
                   && ImageBare(s, t, v) == VStruct(ImageStruct(s, t, v)))
              || (IsList(s) && IsList(t) && !s.TMap? && !s.TStruct? && !s.TNum? && !s.TString? && !t.TString?
                  && LosslessList(s, t, v) && ImageBare(s, t, v) == VSeq(ImageList(s, t, v)))
  {
    hide HasType, LosslessList, LosslessMap, LosslessStruct, ImageList, ImageMap, ImageStruct;
  }

  lemma ListBare(s: GoType, t: GoType, v: Value)
    requires HasType(v, s) && IsList(s) && IsList(t) && LosslessList(s, t, v) && !Assignable(s, t)
    ensures LosslessBare(s, t, v) && ImageBare(s, t, v) == VSeq(ImageList(s, t, v))
  {
    hide HasType, LosslessList, ImageList;
  }

  lemma MapBare(s: GoType, t: GoType, v: Value)
    requires HasType(v, s) && s.TMap? && t.TMap? && LosslessMap(s, t, v) && !Assignable(s, t)
    ensures LosslessBare(s, t, v) && ImageBare(s, t, v) == VMap(ImageMap(s, t, v))
  {
    hide HasType, LosslessMap, ImageMap;
  }

  lemma StructBare(s: GoType, t: GoType, v: Value)
    requires HasType(v, s) && s.TStruct? && t.TStruct? && LosslessStruct(s, t, v) && !Assignable(s, t)
    ensures LosslessBare(s, t, v) && ImageBare(s, t, v) == VStruct(ImageStruct(s, t, v))
  {
    hide HasType, LosslessStruct, ImageStruct;
  }

  /** Types of these kinds are assignable both ways or neither way. */
  lemma NotBackAssignable(s: GoType, t: GoType)
    requires (IsList(s) && IsList(t)) || (s.TMap? && t.TMap?) || (s.TStruct? && t.TStruct?)
    ensures Assignable(s, t) <==> Assignable(t, s)
  {}

  lemma ElementFacts(s: GoType, t: GoType, v: Value, i: nat)
    requires IsList(s) && IsList(t) && LosslessList(s, t, v) && i < |v.elems|
    ensures s.TSlice? || s.TArray?
    ensures t.TSlice? || t.TArray?
    ensures HasType(v.elems[i], s.elem) && Lossless(s.elem, t.elem, v.elems[i])
    ensures ImageList(s, t, v)[i] == Image(s.elem, t.elem, v.elems[i])
  {
    hide HasType, Lossless, Image;
    assert ElementLossless(s, t, v, i);
  }

  lemma ValueFacts(s: GoType, t: GoType, v: Value, i: nat)
    requires s.TMap? && t.TMap? && LosslessMap(s, t, v) && i < |v.entries|
    ensures HasType(v.entries[i].val, s.elem) && Lossless(s.elem, t.elem, v.entries[i].val)
    ensures ImageMap(s, t, v)[i] == Entry(v.entries[i].key, Image(s.elem, t.elem, v.entries[i].val))
  {
    hide HasType, Lossless, Image;
    assert ValueLossless(s, t, v, i);
  }

  lemma FieldFacts(s: GoType, t: GoType, v: Value, j: nat)
    requires s.TStruct? && t.TStruct? && LosslessStruct(s, t, v) && j < |t.fields|
    ensures SourceOf(s.fields, t.fields[j]).Some?
    ensures var i := SourceOf(s.fields, t.fields[j]).value;
            && v.VStruct? && i < |v.fields| && SourceOf(t.fields, s.fields[i]) == Some(j)
            && HasType(v.fields[i], s.fields[i].typ) && Lossless(s.fields[i].typ, t.fields[j].typ, v.fields[i])
            && ImageStruct(s, t, v)[j] == Image(s.fields[i].typ, t.fields[j].typ, v.fields[i])
  {
    hide HasType, Lossless, Image, SourceOf, LosslessStruct;
    FilledFrom(s, t, v, j);
  }

  // ------------------------------------------------------------------ forward

  lemma AssignableIsStored(env: Env, t: GoType, dst: Value, s: GoType, v: Value)
    requires Sane(env) && HasType(dst, t) && HasType(v, s) && Bare(s) && Bare(t) && Assignable(s, t) && Assignable(t, s)
    ensures Convert.Convert(env, t, dst, s, v) == Outcome(v, None)
  {
    hide Sane, HasType, ConvertSlice, ConvertArray, ConvertMap, ConvertStruct;
    hide ConvertAny, ConvertJSON, NumberToNumber, Fallback;
  }

  lemma NumberForward(env: Env, t: GoType, dst: Value, s: GoType, v: Value)
    requires Sane(env) && HasType(dst, t) && HasType(v, s) && s.TNum? && t.TNum? && s != t
    requires LosslessBare(s, t, v)
    ensures Convert.Convert(env, t, dst, s, v) == Outcome(ImageBare(s, t, v), None)
  {
    NumbersReachNumbers(env, t.kind, dst, s.kind, v);
    NumberForwardSteps(env, t.kind, dst, s.kind, v);
    hide Sane, Convert.Convert, NumberToNumber, LosslessNumber, ImageNumber;
  }

  lemma NumberForwardSteps(env: Env, k: Num, dst: Value, j: Num, v: Value)
    requires Sane(env) && HasType(dst, TNum(k)) && HasType(v, TNum(j)) && j != k && LosslessNumber(j, k, v)
    ensures NumberToNumber(env, k, dst, TNum(j), v) == Outcome(ImageNumber(j, k, v), None)
  {
    hide RoundF64, IntOf, Congruent, Unit, IsFloat32;
    var z := if !j.IsFloat() then v.n else if v.f.Fin? then Trunc(v.f.x) else 0;
    RoundingBound(z);
    if !k.IsFloat() {
      DetourExact(env.floats, k, z);
    }
  }

  lemma TextForward(env: Env, t: GoType, dst: Value, s: GoType, v: Value)
    requires Sane(env) && HasType(dst, t) && HasType(v, s) && (s.TString? || t.TString?) && !Assignable(s, t)
    requires LosslessBare(s, t, v)
    ensures Convert.Convert(env, t, dst, s, v) == Outcome(ImageBare(s, t, v), None)
  {
    hide Sane, ConvertSlice, ConvertArray, ConvertMap, ConvertStruct, ConvertAny, NumberToNumber, Fallback;
  }

  /** Every element of a list converts to its image, whatever it is stored over. */
  ghost predicate ElementsConvert(env: Env, t: GoType, s: GoType, v: Value, images: seq<Value>)
    requires Sane(env)
  {
    && IsList(s) && IsList(t) && HasType(v, s) && v.VSeq? && |images| == |v.elems|
    && forall i, d :: 0 <= i < |images| && HasType(d, t.elem)
         ==> ElementConverts(env, t, s, v, i, d, images[i])
  }

  ghost predicate ElementConverts(env: Env, t: GoType, s: GoType, v: Value, i: nat, d: Value, image: Value)
    requires Sane(env) && IsList(s) && IsList(t) && HasType(v, s) && v.VSeq? && i < |v.elems| && HasType(d, t.elem)
  {
    Convert.Convert(env, t.elem, d, s.elem, v.elems[i]) == Outcome(image, None)
  }

  lemma ElementAt(env: Env, t: GoType, s: GoType, v: Value, images: seq<Value>, i: nat, d: Value)
    requires Sane(env) && ElementsConvert(env, t, s, v, images)
    ensures IsList(s) && HasType(v, s) && v.VSeq? && Elements(v) == v.elems && |v.elems| == |images|
    ensures (s.TSlice? || s.TArray?) && (t.TSlice? || t.TArray?)
    ensures i < |images| && HasType(d, t.elem) ==>
              HasType(v.elems[i], s.elem)
                && Convert.Convert(env, t.elem, d, s.elem, v.elems[i]) == Outcome(images[i], None)
  {
    hide Sane, Convert.Convert;
    assert i < |images| && HasType(d, t.elem) ==> ElementConverts(env, t, s, v, i, d, images[i]);
  }

  lemma InPlaceForwardStep(env: Env, t: GoType, dst: Value, s: GoType, v: Value, images: seq<Value>, n: nat)
    requires Sane(env) && HasType(dst, t) && t.TArray? && dst.VSeq? && |dst.elems| == t.len
               && HasType(v, s) && IsList(s)
    requires |Elements(v)| == |images| == t.len && n < t.len
    requires ElementsConvert(env, t, s, v, images)
    requires ConvertInPlace(env, t, dst, s, v, n) == Outcome(VSeq(images[..n] + dst.elems[n..]), None)
    ensures ConvertInPlace(env, t, dst, s, v, n + 1) == Outcome(VSeq(images[..n + 1] + dst.elems[n + 1..]), None)
  {
    hide *;
    OneMoreReplaced(images, dst.elems, n);
    InPlaceStep(env, t, dst, s, v, n);
    ElementAt(env, t, s, v, images, n, dst.elems[n]);
  }

  lemma {:induction false} InPlaceForward(
    env: Env, t: GoType, dst: Value, s: GoType, v: Value, images: seq<Value>, n: nat)
    requires Sane(env) && HasType(dst, t) && t.TArray? && dst.VSeq? && |dst.elems| == t.len
               && HasType(v, s) && IsList(s)
    requires |Elements(v)| == |images| == t.len && n <= t.len
    requires ElementsConvert(env, t, s, v, images)
    ensures ConvertInPlace(env, t, dst, s, v, n) == Outcome(VSeq(images[..n] + dst.elems[n..]), None)
  {
    hide *;
    if n == 0 {
      ArrayCases(env, t, dst, s, v);
      assert images[..0] + dst.elems[0..] == dst.elems;
    } else {
      InPlaceForward(env, t, dst, s, v, images, n - 1);
      InPlaceForwardStep(env, t, dst, s, v, images, n - 1);
    }
  }

  lemma OneMoreReplaced<T>(front: seq<T>, whole: seq<T>, n: nat)
    requires n < |front| == |whole|
    ensures var s := front[..n] + whole[n..];
            |s| == |whole| && s[n] == whole[n] && s[n := front[n]] == front[..n + 1] + whole[n + 1..]
  {}

  lemma ListForward(env: Env, t: GoType, dst: Value, s: GoType, v: Value, images: seq<Value>)
    requires Sane(env) && HasType(dst, t) && HasType(v, s) && IsList(s) && IsList(t) && !Assignable(s, t)
    requires !LooksLikeJSON(env, s, v) && ElementsConvert(env, t, s, v, images) && (t.TArray? ==> |images| == t.len)
    ensures Convert.Convert(env, t, dst, s, v) == Outcome(VSeq(images), None)
  {
    hide Sane, HasType, Convert.Convert, LooksLikeJSON, Assignable, ConvertInPlace, ConvertArray;
    if t.TSlice? {
      SliceKeepsOrder(env, t, dst, s, v);
      forall i | 0 <= i < |images| ensures ElementOutcome(env, t.elem, s, v, i) == Outcome(images[i], None) {
        assert ElementConverts(env, t, s, v, i, Zero(t.elem), images[i]);
      }
      assert Convert.Convert(env, t, dst, s, v).dst.elems == images;
    } else {
      ArraysReachArrays(env, t, dst, s, v);
      ArrayCases(env, t, dst, s, v);
      ArrayShape(t, dst);
      ElementAt(env, t, s, v, images, 0, dst);
      InPlaceForward(env, t, dst, s, v, images, t.len);
      assert images[..t.len] + dst.elems[t.len..] == images;
    }
  }

  lemma ArraysReachArrays(env: Env, t: GoType, dst: Value, s: GoType, v: Value)
    requires Sane(env) && HasType(dst, t) && HasType(v, s) && IsList(s) && t.TArray? && !Assignable(s, t)
    ensures Convert.Convert(env, t, dst, s, v) == ConvertArray(env, t, dst, s, v)
  {
    hide ConvertArray, HasType, Sane, Assignable;
  }

  lemma NotJSON(env: Env, s: GoType, v: Value)
    requires HasType(v, s) && IsList(s) && !IsBytes(s)
    ensures !LooksLikeJSON(env, s, v)
  {}

  lemma MapForward(env: Env, t: GoType, dst: Value, s: GoType, v: Value, images: seq<Entry>)
    requires Sane(env) && HasType(dst, t) && HasType(v, s) && s.TMap? && t.TMap? && !Assignable(s, t)
    requires v.VMap? && s.key.TString? && t.key.TString? && |images| == |v.entries|
    requires forall i :: 0 <= i < |images| ==>
               EntryOutcome(env, t.elem, s, v, i).err.None? && images[i] == EntryImage(env, t.elem, s, v, i)
    ensures Convert.Convert(env, t, dst, s, v) == Outcome(VMap(images), None)
  {
    MapKeepsKeys(env, t, dst, s, v);
    var r := Convert.Convert(env, t, dst, s, v);
    hide Convert.Convert, Sane, HasType, EntryOutcome, Assignable, EntryImage;
    assert r.dst.entries == images;
  }

  ghost predicate FieldsConvert(env: Env, t: GoType, dst: Value, s: GoType, v: Value, images: seq<Value>)
    requires Sane(env) && HasType(dst, t) && HasType(v, s) && t.TStruct? && FillsStructs(s)
  {
    |images| == |t.fields| && forall j :: 0 <= j < |t.fields| ==>
      FieldOutcome(env, t, dst, s, v, j) == Outcome(images[j], None)
  }

  lemma StructForward(env: Env, t: GoType, dst: Value, s: GoType, v: Value, images: seq<Value>)
    requires Sane(env) && HasType(dst, t) && HasType(v, s) && t.TStruct? && FillsStructs(s) && !Assignable(s, t)
    requires FieldsConvert(env, t, dst, s, v, images)
    ensures Convert.Convert(env, t, dst, s, v) == Outcome(VStruct(images), None)
  {
    StructFilledInOrder(env, t, dst, s, v);
    hide Convert.Convert, Sane, HasType, FieldOutcome, Assignable, FillsStructs;
    AllConvert(env, t, dst, s, v, images, Convert.Convert(env, t, dst, s, v));
  }

  lemma NotStopped(env: Env, t: GoType, dst: Value, s: GoType, v: Value, images: seq<Value>, r: Outcome, k: nat)
    requires Sane(env) && HasType(dst, t) && HasType(v, s) && t.TStruct? && FillsStructs(s) && k < |t.fields|
    requires FieldsConvert(env, t, dst, s, v, images)
    ensures !StoppedAt(env, t, dst, s, v, r, k)
  {
    hide Sane, HasType, FieldOutcome, FillsStructs, FilledTo, AllFilled;
  }

  lemma FilledIsImage(env: Env, t: GoType, dst: Value, s: GoType, v: Value, images: seq<Value>, filled: Value)
    requires Sane(env) && HasType(dst, t) && HasType(v, s) && t.TStruct? && FillsStructs(s)
    requires FieldsConvert(env, t, dst, s, v, images) && FilledTo(env, t, dst, s, v, filled, |t.fields|)
    ensures filled == VStruct(images)
  {
    hide Sane, HasType, FieldOutcome, FillsStructs;
    assert filled.fields == images;
  }

  lemma AllConvert(env: Env, t: GoType, dst: Value, s: GoType, v: Value, images: seq<Value>, r: Outcome)
    requires Sane(env) && HasType(dst, t) && HasType(v, s) && t.TStruct? && FillsStructs(s)
    requires FieldsConvert(env, t, dst, s, v, images) && FieldsDone(env, t, dst, s, v, r, |t.fields|)
    ensures r == Outcome(VStruct(images), None)
  {
    hide Sane, HasType, FieldOutcome, FillsStructs, FieldsConvert, StoppedAt, FilledTo, AllFilled;
    forall k: nat | k < |t.fields| ensures !StoppedAt(env, t, dst, s, v, r, k) {
      NotStopped(env, t, dst, s, v, images, r, k);
    }
    FilledIsImage(env, t, dst, s, v, images, r.dst);
  }

  lemma FieldForward(env: Env, t: GoType, dst: Value, s: GoType, v: Value, i: nat, j: nat, image: Value)
    requires Sane(env) && HasType(dst, t) && HasType(v, s) && t.TStruct? && s.TStruct? && j < |t.fields|
    requires SourceOf(s.fields, t.fields[j]) == Some(i) && i < |s.fields|
    requires v.VStruct? && i < |v.fields| && HasType(v.fields[i], s.fields[i].typ)
    requires dst.VStruct? && j < |dst.fields| && HasType(dst.fields[j], t.fields[j].typ)
    requires Convert.Convert(env, t.fields[j].typ, dst.fields[j], s.fields[i].typ, v.fields[i]) == Outcome(image, None)
    ensures FieldOutcome(env, t, dst, s, v, j) == Outcome(image, None)
  {
    hide Convert.Convert, Sane, HasType, SourceOf;
  }

  /** Pointers around the source are followed. */
  lemma {:induction false} FollowSource(env: Env, s: GoType, t: GoType, dst: Value, v: Value)
    requires Sane(env) && HasType(dst, t) && HasType(v, s) && Unbroken(s, v)
    ensures Convert.Convert(env, t, dst, s, v) == Convert.Convert(env, t, dst, Pointed(s), Followed(s, v))
  {
    hide Convert.Convert, HasType, Sane;
    if s.TPtr? {
      assert HasType(v.target, s.elem) by { TargetHasType(s, v); }
      FollowSource(env, s.elem, t, dst, v.target);
      OneSourcePointer(env, t, dst, s.elem, v.target);
    }
  }

  lemma TargetHasType(s: GoType, v: Value)
    requires HasType(v, s) && s.TPtr? && v.VPtr?
    ensures HasType(v.target, s.elem)
  {}

  /** A lossless conversion succeeds and gives the image, whatever the destination held. */
  lemma {:induction false} Forward(env: Env, s: GoType, t: GoType, dst: Value, v: Value)
    requires Sane(env) && HasType(dst, t) && HasType(v, s) && Lossless(s, t, v)
    ensures Convert.Convert(env, t, dst, s, v) == Outcome(Image(s, t, v), None)
    decreases v, 3
  {
    PointerCases(s, t, v);
    hide *;
    if s.TPtr? && v.VNil? {
      NilSource(env, t, dst, s);
    } else {
      FollowSource(env, s, t, dst, v);
      ForwardBehind(env, Pointed(s), t, dst, Followed(s, v));
    }
  }

  /** Pointers around the destination are followed or made. */
  lemma {:induction false} ForwardBehind(env: Env, s: GoType, t: GoType, dst: Value, v: Value)
    requires Sane(env) && HasType(dst, t) && HasType(v, s) && Bare(s) && LosslessBare(s, Pointed(t), v)
    requires t.TPtr? ==> NoNulls(s)
    ensures Convert.Convert(env, t, dst, s, v) == Outcome(Wrapped(t, ImageBare(s, Pointed(t), v)), None)
    decreases v, 2, t
  {
    PointedOnce(t, ImageBare(s, Pointed(t), v));
    hide *;
    if t.TPtr? {
      NotPgNull(s, v);
      OneDestinationPointer(env, t.elem, dst, s, v);
      ForwardBehind(env, s, t.elem, Pointee(t, dst), v);
    } else {
      ForwardBare(env, s, t, dst, v);
    }
  }

  lemma PointedOnce(t: GoType, v: Value)
    ensures Pointed(t) == if t.TPtr? then Pointed(t.elem) else t
    ensures Wrapped(t, v) == if t.TPtr? then VPtr(Wrapped(t.elem, v)) else v
    ensures Bare(t) <==> !t.TPtr?
    ensures t.TPtr? ==> t == TPtr(t.elem)
  {}

  lemma NotPgNull(s: GoType, v: Value)
    requires HasType(v, s) && NoNulls(s)
    ensures !PgNull(s, v)
  {}

  lemma PointerCases(s: GoType, t: GoType, v: Value)
    requires HasType(v, s) && Lossless(s, t, v)
    ensures s.TPtr? && v.VNil? ==> t.TPtr? && Image(s, t, v) == VNil && Zero(t) == VNil && s == TPtr(s.elem)
    ensures !(s.TPtr? && v.VNil?) ==>
              && Unbroken(s, v) && LosslessBare(Pointed(s), Pointed(t), Followed(s, v)) && Bare(Pointed(s))
              && (s.TPtr? || t.TPtr? ==> NoNulls(Pointed(s)) && NoNulls(Pointed(t)))
              && Image(s, t, v) == Wrapped(t, ImageBare(Pointed(s), Pointed(t), Followed(s, v)))
  {
    hide LosslessBare, ImageBare, NoNulls;
  }

  lemma ForwardBare(env: Env, s: GoType, t: GoType, dst: Value, v: Value)
    requires Sane(env) && HasType(dst, t) && HasType(v, s) && Bare(s) && Bare(t) && LosslessBare(s, t, v)
    ensures Convert.Convert(env, t, dst, s, v) == Outcome(ImageBare(s, t, v), None)
    decreases v, 1
  {
    BareCases(s, t, v);
    hide *;
    if Assignable(s, t) {
      AssignableIsStored(env, t, dst, s, v);
    } else if s.TNum? && t.TNum? {
      NumberForward(env, t, dst, s, v);
    } else if s.TString? || t.TString? {
      TextForward(env, t, dst, s, v);
    } else if s.TMap? {
      ForwardMap(env, s, t, dst, v);
    } else if s.TStruct? {
      ForwardStruct(env, s, t, dst, v);
    } else {
      ForwardList(env, s, t, dst, v);
    }
  }

  lemma ForwardMap(env: Env, s: GoType, t: GoType, dst: Value, v: Value)
    requires Sane(env) && HasType(dst, t) && HasType(v, s) && s.TMap? && t.TMap? && !Assignable(s, t)
    requires LosslessMap(s, t, v)
    ensures Convert.Convert(env, t, dst, s, v) == Outcome(VMap(ImageMap(s, t, v)), None)
    decreases v, 0
  {
    hide Convert.Convert, Sane, HasType, ImageMap, Lossless, Image, Assignable, ValueLossless;
    var images := ImageMap(s, t, v);
    forall i | 0 <= i < |images|
      ensures EntryOutcome(env, t.elem, s, v, i).err.None? && images[i] == EntryImage(env, t.elem, s, v, i)
    {
      ValueFacts(s, t, v, i);
      Forward(env, s.elem, t.elem, Zero(t.elem), v.entries[i].val);
    }
    MapForward(env, t, dst, s, v, images);
  }

  lemma ForwardStruct(env: Env, s: GoType, t: GoType, dst: Value, v: Value)
    requires Sane(env) && HasType(dst, t) && HasType(v, s) && s.TStruct? && t.TStruct? && !Assignable(s, t)
    requires LosslessStruct(s, t, v)
    ensures Convert.Convert(env, t, dst, s, v) == Outcome(VStruct(ImageStruct(s, t, v)), None)
    decreases v, 0
  {
    StructShape(t, dst);
    hide Convert.Convert, Sane, HasType, ImageStruct, Lossless, Image;
    hide Assignable, LosslessStruct, FieldOutcome, SourceOf;
    var images := ImageStruct(s, t, v);
    forall j | 0 <= j < |t.fields| ensures FieldOutcome(env, t, dst, s, v, j) == Outcome(images[j], None) {
      FieldFacts(s, t, v, j);
      var i := SourceOf(s.fields, t.fields[j]).value;
      Forward(env, s.fields[i].typ, t.fields[j].typ, dst.fields[j], v.fields[i]);
      FieldForward(env, t, dst, s, v, i, j, images[j]);
    }
    StructForward(env, t, dst, s, v, images);
  }

  lemma ForwardList(env: Env, s: GoType, t: GoType, dst: Value, v: Value)
    requires Sane(env) && HasType(dst, t) && HasType(v, s) && IsList(s) && IsList(t) && !Assignable(s, t)
    requires LosslessList(s, t, v)
    ensures Convert.Convert(env, t, dst, s, v) == Outcome(VSeq(ImageList(s, t, v)), None)
    decreases v, 0
  {
    NotJSON(env, s, v);
    hide Convert.Convert, Sane, HasType, ImageList, Lossless, Image, Assignable, ElementLossless, LooksLikeJSON;
    var images := ImageList(s, t, v);
    forall i, d | 0 <= i < |images| && HasType(d, t.elem) ensures ElementConverts(env, t, s, v, i, d, images[i]) {
      ElementFacts(s, t, v, i);
      Forward(env, s.elem, t.elem, d, v.elems[i]);
    }
    ListForward(env, t, dst, s, v, images);
  }

  // --------------------------------------------------------------------- back

  /** The image is lossless in the other direction, and its image is the value. */
  ghost predicate ComesBack(s: GoType, t: GoType, v: Value, im: Value) {
    HasType(im, t) && Lossless(t, s, im) && Image(t, s, im) == v
  }

  ghost predicate ComesBackBare(s: GoType, t: GoType, v: Value, im: Value) {
    HasType(im, t) && LosslessBare(t, s, im) && ImageBare(t, s, im) == v
  }

  lemma NumberBack(s: GoType, t: GoType, v: Value)
    requires HasType(v, s) && s.TNum? && t.TNum? && s != t && LosslessBare(s, t, v)
    ensures ComesBackBare(s, t, v, ImageBare(s, t, v))
  {
    hide IsFloat32;
    if !s.kind.IsFloat() {
      TruncInteger(v.n);
    }
  }

  lemma TextBack(s: GoType, t: GoType, v: Value)
    requires HasType(v, s) && (s.TString? || t.TString?) && !(s.TNum? && t.TNum?)
               && !Assignable(s, t) && LosslessBare(s, t, v)
    ensures ComesBackBare(s, t, v, ImageBare(s, t, v))
  {
    if IsBytes(t) {
      BytesRoundTrip(v.s, []);
      BytesAreBytes(VSeq(BytesOf(v.s)));
    } else {
      BytesAreBytes(v);
      BytesRoundTrip("", v.elems);
    }
  }

  lemma AssignableBack(s: GoType, t: GoType, v: Value)
    requires HasType(v, s) && Assignable(s, t) && LosslessBare(s, t, v) && HasType(ImageBare(s, t, v), t)
    ensures ComesBackBare(s, t, v, ImageBare(s, t, v))
  {}

  lemma ArrayLength(s: GoType, v: Value)
    requires HasType(v, s)
    ensures s.TArray? ==> v.VSeq? && |v.elems| == s.len
  {}

  lemma ListBack(s: GoType, t: GoType, v: Value, im: Value)
    requires HasType(v, s) && IsList(s) && IsList(t) && !Assignable(s, t) && LosslessList(s, t, v)
    requires im == VSeq(ImageList(s, t, v)) && HasType(im, t)
    requires forall i :: 0 <= i < |v.elems| ==> ComesBack(s.elem, t.elem, v.elems[i], im.elems[i])
    ensures ComesBackBare(s, t, v, im)
  {
    NotBackAssignable(s, t);
    ArrayLength(s, v);
    hide HasType, Lossless, Image, ImageList, Assignable, IsBytes, IsList;
    forall i | 0 <= i < |v.elems| ensures ElementLossless(t, s, im, i) {
      assert ComesBack(s.elem, t.elem, v.elems[i], im.elems[i]);
    }
    ListBare(t, s, im);
    forall i | 0 <= i < |v.elems| ensures ImageList(t, s, im)[i] == v.elems[i] {
      ElementFacts(t, s, im, i);
      assert ComesBack(s.elem, t.elem, v.elems[i], im.elems[i]);
    }
    assert ImageList(t, s, im) == v.elems;
  }

  lemma MapBack(s: GoType, t: GoType, v: Value, im: Value)
    requires HasType(v, s) && s.TMap? && t.TMap? && !Assignable(s, t) && LosslessMap(s, t, v)
    requires im == VMap(ImageMap(s, t, v)) && HasType(im, t)
    requires forall i :: 0 <= i < |v.entries| ==>
               && im.entries[i].key == v.entries[i].key
               && ComesBack(s.elem, t.elem, v.entries[i].val, im.entries[i].val)
    ensures ComesBackBare(s, t, v, im)
  {
    NotBackAssignable(s, t);
    hide HasType, Lossless, Image, ImageMap, Assignable;
    forall i | 0 <= i < |v.entries| ensures ValueLossless(t, s, im, i) {
      assert ComesBack(s.elem, t.elem, v.entries[i].val, im.entries[i].val);
    }
    MapBare(t, s, im);
    forall i | 0 <= i < |v.entries| ensures ImageMap(t, s, im)[i] == v.entries[i] {
      ValueFacts(t, s, im, i);
      assert ComesBack(s.elem, t.elem, v.entries[i].val, im.entries[i].val);
    }
    assert ImageMap(t, s, im) == v.entries;
  }

  /** The field of a value that fills field j of the other struct comes back from it. */
  ghost predicate FieldBack(s: GoType, t: GoType, v: Value, im: Value, j: nat)
    requires s.TStruct? && t.TStruct? && j < |t.fields|
  {
    var i := SourceOf(s.fields, t.fields[j]);
    && i.Some? && v.VStruct? && i.value < |v.fields| && im.VStruct? && j < |im.fields|
    && ComesBack(s.fields[i.value].typ, t.fields[j].typ, v.fields[i.value], im.fields[j])
  }

  lemma StructBackLossless(s: GoType, t: GoType, v: Value, im: Value)
    requires s.TStruct? && t.TStruct? && Mutual(s.fields, t.fields) && im.VStruct? && |im.fields| == |t.fields|
    requires forall j :: 0 <= j < |t.fields| ==> FieldBack(s, t, v, im, j)
    ensures LosslessStruct(t, s, im)
  {
    hide HasType, Lossless, Image, SourceOf;
    forall j | 0 <= j < |t.fields| ensures FieldLossless(t, s, im, j, SourceOf(s.fields, t.fields[j]).value) {
      assert FieldBack(s, t, v, im, j);
    }
  }

  lemma StructBack(s: GoType, t: GoType, v: Value, im: Value)
    requires HasType(v, s) && s.TStruct? && t.TStruct? && !Assignable(s, t) && LosslessStruct(s, t, v)
    requires HasType(im, t) && im.VStruct? && |im.fields| == |t.fields|
    requires forall j :: 0 <= j < |t.fields| ==> FieldBack(s, t, v, im, j)
    ensures ComesBackBare(s, t, v, im)
  {
    NotBackAssignable(s, t);
    StructShape(s, v);
    StructBackLossless(s, t, v, im);
    StructBare(t, s, im);
    hide HasType, Lossless, Image, ImageStruct, Assignable, SourceOf, LosslessStruct;
    forall i | 0 <= i < |s.fields| ensures ImageStruct(t, s, im)[i] == v.fields[i] {
      FieldFacts(t, s, im, i);
      assert FieldBack(s, t, v, im, SourceOf(t.fields, s.fields[i]).value);
    }
    assert ImageStruct(t, s, im) == v.fields;
  }

  lemma MutualOf(s: GoType, t: GoType, v: Value)
    requires s.TStruct? && t.TStruct? && LosslessStruct(s, t, v)
    ensures Mutual(s.fields, t.fields)
  {
    hide Mutual, FieldLossless, SourceOf;
  }

  lemma ImageTyped(env: Env, s: GoType, t: GoType, v: Value)
    requires Sane(env) && HasType(v, s) && Bare(s) && Bare(t) && LosslessBare(s, t, v)
    ensures HasType(ImageBare(s, t, v), t)
  {
    hide *;
    ForwardBare(env, s, t, Zero(t), v);
  }

  lemma {:induction false} Back(env: Env, s: GoType, t: GoType, v: Value)
    requires Sane(env) && HasType(v, s) && Lossless(s, t, v)
    ensures ComesBack(s, t, v, Image(s, t, v))
    decreases v, 2
  {
    PointerCases(s, t, v);
    if s.TPtr? && v.VNil? {
      NilBack(s, t);
    } else {
      hide LosslessBare, ImageBare, Lossless, Image, NoNulls, ComesBack, ComesBackBare;
      BackBare(env, Pointed(s), Pointed(t), Followed(s, v));
      PointersBack(s, t, v);
    }
  }

  lemma NilBack(s: GoType, t: GoType)
    requires s.TPtr? && t.TPtr?
    ensures HasType(VNil, s) && ComesBack(s, t, VNil, VNil)
  {
    hide LosslessBare, ImageBare;
  }

  lemma PointersBack(s: GoType, t: GoType, v: Value)
    requires HasType(v, s) && Lossless(s, t, v) && !(s.TPtr? && v.VNil?)
    requires LosslessBare(Pointed(s), Pointed(t), Followed(s, v))
    requires ComesBackBare(Pointed(s), Pointed(t), Followed(s, v), ImageBare(Pointed(s), Pointed(t), Followed(s, v)))
    ensures ComesBack(s, t, v, Image(s, t, v))
  {
    PointerCases(s, t, v);
    hide LosslessBare, ImageBare, NoNulls, HasType;
    var x := ImageBare(Pointed(s), Pointed(t), Followed(s, v));
    WrappedBack(t, x);
    WrappedFollowed(s, v);
  }

  lemma {:induction false} WrappedBack(t: GoType, x: Value)
    requires HasType(x, Pointed(t))
    ensures HasType(Wrapped(t, x), t) && Unbroken(t, Wrapped(t, x)) && Followed(t, Wrapped(t, x)) == x
    ensures t.TPtr? ==> !Wrapped(t, x).VNil?
  {
    if t.TPtr? {
      WrappedBack(t.elem, x);
    }
  }

  lemma {:induction false} WrappedFollowed(s: GoType, v: Value)
    requires HasType(v, s) && Unbroken(s, v)
    ensures Wrapped(s, Followed(s, v)) == v
  {
    if s.TPtr? {
      WrappedFollowed(s.elem, v.target);
    }
  }

  lemma BackBare(env: Env, s: GoType, t: GoType, v: Value)
    requires Sane(env) && HasType(v, s) && Bare(s) && Bare(t) && LosslessBare(s, t, v)
    ensures ComesBackBare(s, t, v, ImageBare(s, t, v))
    decreases v, 1
  {
    BareCases(s, t, v);
    ImageTyped(env, s, t, v);
    hide *;
    if Assignable(s, t) {
      AssignableBack(s, t, v);
    } else if s.TNum? && t.TNum? {
      NumberBack(s, t, v);
    } else if s.TString? || t.TString? {
      TextBack(s, t, v);
    } else if s.TMap? {
      BackMap(env, s, t, v);
    } else if s.TStruct? {
      BackStruct(env, s, t, v);
    } else {
      BackList(env, s, t, v);
    }
  }

  lemma BackMap(env: Env, s: GoType, t: GoType, v: Value)
    requires Sane(env) && HasType(v, s) && s.TMap? && t.TMap? && !Assignable(s, t) && LosslessMap(s, t, v)
    requires HasType(VMap(ImageMap(s, t, v)), t)
    ensures ComesBackBare(s, t, v, VMap(ImageMap(s, t, v)))
    decreases v, 0
  {
    hide Sane, HasType, ImageMap, Lossless, Image, Assignable, ValueLossless, ComesBack, ComesBackBare;
    var im := VMap(ImageMap(s, t, v));
    forall i | 0 <= i < |v.entries|
      ensures im.entries[i].key == v.entries[i].key && ComesBack(s.elem, t.elem, v.entries[i].val, im.entries[i].val)
    {
      ValueFacts(s, t, v, i);
      Back(env, s.elem, t.elem, v.entries[i].val);
    }
    MapBack(s, t, v, im);
  }

  lemma BackStruct(env: Env, s: GoType, t: GoType, v: Value)
    requires Sane(env) && HasType(v, s) && s.TStruct? && t.TStruct? && !Assignable(s, t) && LosslessStruct(s, t, v)
    requires HasType(VStruct(ImageStruct(s, t, v)), t)
    ensures ComesBackBare(s, t, v, VStruct(ImageStruct(s, t, v)))
    decreases v, 0
  {
    MutualOf(s, t, v);
    hide Sane, HasType, ImageStruct, Lossless, Image, Assignable;
    hide LosslessStruct, ComesBack, ComesBackBare, SourceOf, Mutual;
    var im := VStruct(ImageStruct(s, t, v));
    forall j | 0 <= j < |t.fields| ensures FieldBack(s, t, v, im, j) {
      FieldFacts(s, t, v, j);
      var i := SourceOf(s.fields, t.fields[j]).value;
      Back(env, s.fields[i].typ, t.fields[j].typ, v.fields[i]);
    }
    StructBack(s, t, v, im);
  }

  lemma BackList(env: Env, s: GoType, t: GoType, v: Value)
    requires Sane(env) && HasType(v, s) && IsList(s) && IsList(t) && !Assignable(s, t) && LosslessList(s, t, v)
    requires HasType(VSeq(ImageList(s, t, v)), t)
    ensures ComesBackBare(s, t, v, VSeq(ImageList(s, t, v)))
    decreases v, 0
  {
    hide Sane, HasType, ImageList, Lossless, Image, Assignable, ElementLossless, ComesBack, ComesBackBare;
    var im := VSeq(ImageList(s, t, v));
    forall i | 0 <= i < |v.elems| ensures ComesBack(s.elem, t.elem, v.elems[i], im.elems[i]) {
      ElementFacts(s, t, v, i);
      Back(env, s.elem, t.elem, v.elems[i]);
    }
    ListBack(s, t, v, im);
  }

  // -------------------------------------------------------------- the theorems

  /** A value of type s is converted without error to a value of type t, stored over another. */
  ghost predicate Becomes(env: Env, s: GoType, v: Value, t: GoType, over: Value, w: Value) {
    Sane(env) && HasType(v, s) && HasType(over, t) && Convert.Convert(env, t, over, s, v) == Outcome(w, None)
  }

  /** A value converts to another type without error, and back without error to the same value,
      over given contents of the two destinations. */
  ghost predicate Survives(env: Env, s: GoType, t: GoType, v: Value, there: Value, here: Value) {
    exists w :: Becomes(env, s, v, t, there, w) && Becomes(env, t, w, s, here, v)
  }

  /** Converting a lossless value to the other type and back gives the value, whatever the two
      destinations held before. */
  lemma RoundTrip(env: Env, s: GoType, t: GoType, v: Value, there: Value, here: Value)
    requires Sane(env) && HasType(v, s) && HasType(there, t) && HasType(here, s) && Lossless(s, t, v)
    ensures Survives(env, s, t, v, there, here)
  {
    hide *;
    Back(env, s, t, v);
    var im := Image(s, t, v);
    ComesBackMeans(s, t, v, im);
    BecomesImage(env, s, t, there, v);
    BecomesImage(env, t, s, here, im);
    SurvivesThrough(env, s, t, v, there, here, im);
  }

  lemma BecomesImage(env: Env, s: GoType, t: GoType, over: Value, v: Value)
    requires Sane(env) && HasType(over, t) && HasType(v, s) && Lossless(s, t, v)
    ensures Becomes(env, s, v, t, over, Image(s, t, v))
  {
    hide Sane, HasType, Lossless, Image, Convert.Convert;
    Forward(env, s, t, over, v);
  }

  lemma SurvivesThrough(env: Env, s: GoType, t: GoType, v: Value, there: Value, here: Value, w: Value)
    requires Becomes(env, s, v, t, there, w) && Becomes(env, t, w, s, here, v)
    ensures Survives(env, s, t, v, there, here)
  {
    hide Becomes;
  }

  lemma ComesBackMeans(s: GoType, t: GoType, v: Value, im: Value)
    requires ComesBack(s, t, v, im)
    ensures HasType(im, t) && Lossless(t, s, im) && Image(t, s, im) == v
  {}

  lemma StructIsLossless(s: GoType, t: GoType, v: Value)
    requires s.TStruct? && t.TStruct? && HasType(v, s) && !Assignable(s, t) && LosslessStruct(s, t, v)
    ensures Lossless(s, t, v)
  {
    StructBare(s, t, v);
    hide HasType, LosslessBare, LosslessStruct;
  }

  /** Structs with the same field names and tags, none of whose fields has the most important name
      of a later one, and whose fields are lossless pairwise. */
  lemma StructRoundTrip(env: Env, s: GoType, t: GoType, v: Value, there: Value, here: Value)
    requires Sane(env) && s.TStruct? && t.TStruct? && HasType(v, s) && HasType(there, t) && HasType(here, s)
    requires !Assignable(s, t) && SameNamesAll(s.fields, t.fields)
    requires forall i :: 0 <= i < |s.fields| ==> NoOwnerBefore(s.fields, i)
    requires forall i :: 0 <= i < |s.fields| ==> FieldLossless(s, t, v, i, i)
    ensures Survives(env, s, t, v, there, here)
  {
    hide Sane, HasType, Lossless, Assignable, FieldLossless, Convert.Convert;
    SameNamesMutual(s.fields, t.fields);
    hide Mutual, NoOwnerBefore, SameNamesAll;
    assert LosslessStruct(s, t, v);
    StructIsLossless(s, t, v);
    RoundTrip(env, s, t, v, there, here);
  }

  lemma SameNamesMutual(fs: seq<Field>, gs: seq<Field>)
    requires SameNamesAll(fs, gs)
    requires forall i :: 0 <= i < |fs| ==> NoOwnerBefore(fs, i)
    ensures Mutual(fs, gs) && forall i :: 0 <= i < |fs| ==> SourceOf(gs, fs[i]) == Some(i)
  {
    forall i | 0 <= i < |fs| ensures SourceOf(gs, fs[i]) == Some(i) && SourceOf(fs, gs[i]) == Some(i) {
      assert SameNames(fs[i], gs[i]);
      SentHome(gs, fs, i);
      SentHome(fs, fs, i);
      SameSource(fs, fs[i], gs[i]);
    }
  }

  lemma SameSource(fields: seq<Field>, f: Field, g: Field)
    requires SameNames(f, g)
    ensures SourceOf(fields, f) == SourceOf(fields, g)
  {}

  /** p is a permutation. */
  ghost predicate Permutes(p: seq<nat>) {
    && (forall k, l :: 0 <= k < l < |p| ==> p[k] != p[l])
    && (forall j: nat :: j < |p| ==> j in p)
  }

  /** Structs whose fields pair up by their candidate names, in any order, and are lossless
      pairwise. */
  lemma PairedRoundTrip(env: Env, s: GoType, t: GoType, v: Value, p: seq<nat>, there: Value, here: Value)
    requires Sane(env) && s.TStruct? && t.TStruct? && HasType(v, s) && HasType(there, t) && HasType(here, s)
    requires !Assignable(s, t) && PairsUp(s.fields, t.fields, p) && Permutes(p)
    requires forall i :: 0 <= i < |s.fields| ==> FieldLossless(s, t, v, i, p[i])
    ensures Survives(env, s, t, v, there, here)
  {
    hide Sane, HasType, Lossless, Assignable, FieldLossless, Convert.Convert, Shares;
    PairedMutual(s.fields, t.fields, p);
    hide Mutual, PairsUp, Permutes;
    assert LosslessStruct(s, t, v);
    StructIsLossless(s, t, v);
    RoundTrip(env, s, t, v, there, here);
  }

  lemma PairedMutual(fs: seq<Field>, gs: seq<Field>, p: seq<nat>)
    requires PairsUp(fs, gs, p) && Permutes(p)
    ensures Mutual(fs, gs) && |p| == |fs| && forall i :: 0 <= i < |fs| ==> SourceOf(gs, fs[i]) == Some(p[i])
  {
    hide SourceOf, Shares, Owns, FieldNames;
    forall i | 0 <= i < |fs| ensures SourceOf(gs, fs[i]) == Some(p[i]) && SourceOf(fs, gs[p[i]]) == Some(i) {
      PartnersAreFound(fs, gs, p, i);
    }
    forall j | 0 <= j < |gs|
      ensures SourceOf(fs, gs[j]).Some? && SourceOf(gs, fs[SourceOf(fs, gs[j]).value]) == Some(j)
    {
      var i := PartnerOf(p, j);
      assert SourceOf(fs, gs[p[i]]) == Some(i);
    }
    assert |p| == |fs| == |gs|;
    hide PairsUp, Permutes;
  }

  lemma PartnerOf(p: seq<nat>, j: nat) returns (i: nat)
    requires Permutes(p) && j < |p|
    ensures i < |p| && p[i] == j
  {
    assert j in p;
    i :| 0 <= i < |p| && p[i] == j;
  }
}
