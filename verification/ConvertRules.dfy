/** What each rule of the conversion answers: for every type of destination, which sources it takes,
    what they become and what is left when they are refused. */
module ConvertRules {
  import opened Text
  import opened Numbers
  import opened GoTypes
  import opened Convert
  import opened ConvertSteps
  import opened ConvertMeaning

  /** Neither is a pointer, and a plain assignment will not do. */
  predicate Proper(st: GoType, t: GoType) { !st.TPtr? && !t.TPtr? && !Assignable(st, t) }

  // ------------------------------------------------------------------ numbers

  /** z is x without its fraction. */
  ghost predicate WholePart(x: real, z: int) {
    if x >= 0.0 then z as real <= x < z as real + 1.0 else z as real - 1.0 < x <= z as real
  }

  lemma TruncIsWholePart(x: real)
    ensures WholePart(x, Trunc(x))
    ensures forall z :: WholePart(x, z) ==> z == Trunc(x)
  {
    var f := (if x >= 0.0 then x else -x).Floor;
    forall z | WholePart(x, z) ensures z == Trunc(x) {
      var w := if x >= 0.0 then z else -z;
      assert w as real < (f + 1) as real && f as real < (w + 1) as real;
    }
  }

  /** An integer of some kind holds z: the same number modulo the width of the kind. */
  ghost predicate HoldsOf(k: Num, n: int, z: int) { InRange(k, n) && Congruent(n, z, k.Modulus()) }

  ghost predicate Whole64(f: Float, z: int, low: int, high: int) { f.Fin? && WholePart(f.x, z) && low <= z < high }

  /** v is what a number kind holds of a float64: the number itself, its nearest float32, or its whole
      part; an unsigned kind takes no negative number, and beyond 64 bits the implementation decides. */
  ghost predicate TakenInto(fe: FloatEnv, k: Num, f: Float, v: Value) {
    if k.F64? then v == VFloat(f)
    else if k.F32? then v == VFloat(fe.toFloat32(f))
    else if k.IsSigned() then
      && v.VInt?
      && (forall z :: Whole64(f, z, -0x8000_0000_0000_0000, 0x8000_0000_0000_0000) ==> HoldsOf(k, v.n, z))
      && ((forall z :: !Whole64(f, z, -0x8000_0000_0000_0000, 0x8000_0000_0000_0000)) ==>
            HoldsOf(k, v.n, fe.toInt64(f)))
    else if (f.Fin? && f.x < 0.0) || (f.Inf? && f.negative) then v == VInt(0)
    else
      && v.VInt?
      && (forall z :: Whole64(f, z, 0, 0x1_0000_0000_0000_0000) ==> HoldsOf(k, v.n, z))
      && ((forall z :: !Whole64(f, z, 0, 0x1_0000_0000_0000_0000)) ==> HoldsOf(k, v.n, fe.toUint64(f)))
  }

  lemma SignedIsTaken(fe: FloatEnv, k: Num, f: Float)
    requires k.IsSigned()
    ensures TakenInto(fe, k, f, VInt(IntOf(fe, k, f)))
  {
    if f.Fin? {
      TruncIsWholePart(f.x);
    }
    WrappedIsCongruent(k, ToInt64(fe, f));
    hide Wrapped, Trunc, WholePart;
    assert f.Fin? ==> Whole64(f, Trunc(f.x), -0x8000_0000_0000_0000, 0x8000_0000_0000_0000) == InRange(I64, Trunc(f.x));
  }

  lemma UnsignedIsTaken(fe: FloatEnv, k: Num, f: Float)
    requires k.IsUnsigned()
    ensures TakenInto(fe, k, f, VInt(IntOf(fe, k, f)))
  {
    if Negative(f) {
      TruncInteger(0);
      WrappedIsCongruent(k, 0);
    } else {
      if f.Fin? {
        TruncIsWholePart(f.x);
      }
      WrappedIsCongruent(k, ToUint64(fe, f));
      hide Wrapped, Trunc, WholePart;
      assert f.Fin? ==> Whole64(f, Trunc(f.x), 0, 0x1_0000_0000_0000_0000) == InRange(U64, Trunc(f.x));
    }
  }

  /** The float64 that a number is converted through. */
  ghost predicate Through(src: Value, f: Float) {
    if src.VFloat? then f == src.f else src.VInt? && f == Fin(RoundF64(src.n) as real)
  }

  /** Into a number of another kind: numbers as above, texts as the number that is parsed from them
      without surrounding space, and nothing else. */
  lemma ToNumber(env: Env, k: Num, dst: Value, st: GoType, src: Value)
    requires Sane(env) && HasType(dst, TNum(k)) && HasType(src, st) && Proper(st, TNum(k))
    ensures var r := Convert.Convert(env, TNum(k), dst, st, src);
            && (st.TNum? ==> r.err.None? && forall f :: Through(src, f) ==> TakenInto(env.floats, k, f, r.dst))
            && (st.TString? ==>
                  match env.parseFloat(env.trim(src.s))
                  case Some(f) => r.err.None? && TakenInto(env.floats, k, f, r.dst)
                  case None => r == Outcome(dst, Some(NotANumber)))
            && (!st.TNum? && !st.TString? ==> r == Outcome(dst, Some(NoRule)))
  {
    hide RoundF64, TakenInto, IntOf;
    if st.TNum? || st.TString? {
      var f := if st.TString? then env.parseFloat(env.trim(src.s))
               else if st.kind.IsFloat() then Some(src.f)
               else Some(Fin(RoundF64(src.n) as real));
      if f.Some? {
        KindIsTaken(env.floats, k, f.value);
      }
    }
  }

  lemma KindIsTaken(fe: FloatEnv, k: Num, f: Float)
    ensures k.F64? ==> TakenInto(fe, k, f, VFloat(f))
    ensures k.F32? ==> TakenInto(fe, k, f, VFloat(fe.toFloat32(f)))
    ensures !k.IsFloat() ==> TakenInto(fe, k, f, VInt(IntOf(fe, k, f)))
  {
    if k.IsSigned() {
      SignedIsTaken(fe, k, f);
    } else if k.IsUnsigned() {
      UnsignedIsTaken(fe, k, f);
    }
  }

  // ------------------------------------------------------- booleans and texts

  /** Into a boolean: a number is true exactly when it is not zero, a text is what is parsed from it
      without surrounding space, and nothing else is taken. */
  lemma ToBool(env: Env, dst: Value, st: GoType, src: Value)
    requires Sane(env) && HasType(dst, TBool) && HasType(src, st) && Proper(st, TBool)
    ensures var r := Convert.Convert(env, TBool, dst, st, src);
            && (src.VInt? ==> r == Outcome(VBool(src.n != 0), None))
            && (src.VFloat? ==> r == Outcome(VBool(src.f != Fin(0.0)), None))
            && (st.TString? ==>
                  match env.parseBool(env.trim(src.s))
                  case Some(b) => r == Outcome(VBool(b), None)
                  case None => r == Outcome(dst, Some(NotABool)))
            && (!st.TNum? && !st.TString? ==> r == Outcome(dst, Some(NoRule)))
  {}

  /** The bytes of a text, one by one. */
  ghost predicate SameBytes(s: GoString, elems: seq<Value>) {
    |s| == |elems| && forall i :: 0 <= i < |s| ==> elems[i] == VInt(s[i] as int)
  }

  /** Into a text: bytes as they are, and everything else as it prints. */
  lemma ToText(env: Env, dst: Value, st: GoType, src: Value)
    requires Sane(env) && HasType(dst, TString) && HasType(src, st) && Proper(st, TString)
    ensures var r := Convert.Convert(env, TString, dst, st, src);
            && r.err.None? && r.dst.VString?
            && (if st.TSlice? && st.elem == TNum(U8) then SameBytes(r.dst.s, if src.VSeq? then src.elems else [])
                else r.dst == VString(env.sprint(st, src)))
  {
    if IsBytes(st) {
      BytesAreBytes(src);
    }
  }

  /** Of a text into bytes: the same bytes, whether or not the text looks like JSON. */
  lemma ToBytes(env: Env, dst: Value, src: Value)
    requires Sane(env) && HasType(dst, TSlice(TNum(U8))) && HasType(src, TString)
    ensures var r := Convert.Convert(env, TSlice(TNum(U8)), dst, TString, src);
            r.err.None? && r.dst.VSeq? && SameBytes(src.s, r.dst.elems)
  {}

  // --------------------------------------------------------------------- JSON

  /** The text that a string or a byte slice stands for. */
  ghost predicate Spells(st: GoType, src: Value, text: GoString)
    requires HasType(src, st)
  {
    if st.TString? then text == src.s
    else st.TSlice? && st.elem == TNum(U8) && SameBytes(text, if src.VSeq? then src.elems else [])
  }

  ghost predicate OpensLikeJSON(env: Env, text: GoString) {
    env.trim(text) != "" && (env.trim(text)[0] == '{' || env.trim(text)[0] == '[')
  }

  lemma SpellsOne(st: GoType, src: Value, text: GoString)
    requires HasType(src, st) && Spells(st, src, text)
    ensures SourceText(st, src) == Some(text)
  {
    if IsBytes(st) {
      BytesAreBytes(src);
      assert StringOf(Elements(src)) == text;
    }
  }

  lemma Spelled(env: Env, st: GoType, src: Value)
    requires HasType(src, st)
    ensures LooksLikeJSON(env, st, src) <==> exists text :: Spells(st, src, text) && OpensLikeJSON(env, text)
  {
    forall text | Spells(st, src, text) ensures SourceText(st, src) == Some(text) {
      SpellsOne(st, src, text);
    }
    if IsBytes(st) {
      BytesAreBytes(src);
      assert Spells(st, src, StringOf(Elements(src)));
    } else if st.TString? {
      assert Spells(st, src, src.s);
    }
  }

  /** A text that opens like JSON, into a struct, a map or a slice of anything but bytes: what it
      decodes to, or nothing. */
  lemma FromJSON(env: Env, t: GoType, dst: Value, st: GoType, src: Value, text: GoString)
    requires Sane(env) && HasType(dst, t) && HasType(src, st) && Proper(st, t)
    requires (t.TStruct? || t.TMap? || t.TSlice?) && t != TSlice(TNum(U8))
    requires Spells(st, src, text) && OpensLikeJSON(env, text)
    ensures Convert.Convert(env, t, dst, st, src)
            == match env.unmarshal(text, t) case Some(v) => Outcome(v, None) case None => Outcome(dst, Some(NotJson))
  {
    hide HasType;
    SpellsOne(st, src, text);
    Spelled(env, st, src);
    hide Spells;
  }

  // ------------------------------------------------- lists, maps and structs

  /** A single value, into a slice: the only element. */
  lemma ToSlice(env: Env, t: GoType, dst: Value, st: GoType, src: Value)
    requires Sane(env) && HasType(dst, t) && HasType(src, st) && Proper(st, t) && t.TSlice?
    requires !st.TSlice? && !st.TArray? && (st.TString? ==> t.elem != TNum(U8))
    requires forall text :: Spells(st, src, text) ==> !OpensLikeJSON(env, text)
    ensures var r, o := Convert.Convert(env, t, dst, st, src), Convert.Convert(env, t.elem, Zero(t.elem), st, src);
            r == if o.err.None? then Outcome(VSeq([o.dst]), None) else Outcome(dst, o.err)
  {
    Spelled(env, st, src);
    hide Convert.Convert, ConvertSlice, HasType, Spells, OpensLikeJSON, LooksLikeJSON;
    if st.TAny? {
      AnyGoesToAny(env, t, dst, src);
      AnyGoesToAny(env, t.elem, Zero(t.elem), src);
    } else {
      SliceReached(env, t, dst, st, src);
      SliceCases(env, t, dst, st, src);
    }
  }

  lemma SliceReached(env: Env, t: GoType, dst: Value, st: GoType, src: Value)
    requires Sane(env) && HasType(dst, t) && HasType(src, st) && Proper(st, t) && t.TSlice?
    requires !st.TAny? && (st.TString? ==> t.elem != TNum(U8)) && !LooksLikeJSON(env, st, src)
    ensures Convert.Convert(env, t, dst, st, src) == ConvertSlice(env, t, dst, st, src)
  {
    hide ConvertSlice, HasType, LooksLikeJSON;
  }

  /** What is refused, with the destination left as it was. */
  lemma Refused(env: Env, t: GoType, dst: Value, st: GoType, src: Value)
    requires Sane(env) && HasType(dst, t) && HasType(src, st) && Proper(st, t)
    requires forall text :: Spells(st, src, text) ==> !OpensLikeJSON(env, text)
    ensures var r := Convert.Convert(env, t, dst, st, src);
            && (t.TArray? && !st.TSlice? && !st.TArray? ==> r == Outcome(dst, Some(NotAnArray)))
            && (t.TMap? && t.key != TString ==> r == Outcome(dst, Some(OnlyStringKeys)))
            && (t.TMap? && t.key == TString && !st.TMap? && !st.TStruct? ==> r == Outcome(dst, Some(NotAMap)))
            && (t.TStruct? && !st.TStruct? && !(st.TMap? && st.key == TString) ==> r == Outcome(dst, Some(NotAStruct)))
  {
    Spelled(env, st, src);
    hide Spells, OpensLikeJSON, LooksLikeJSON, HasType;
    if t.TArray? {
      if !st.TSlice? && !st.TArray? {
        ArrayRefuses(env, t, dst, st, src);
      }
    } else if t.TMap? {
      MapRefuses(env, t, dst, st, src);
    } else if t.TStruct? {
      if !st.TStruct? && !(st.TMap? && st.key == TString) {
        StructRefuses(env, t, dst, st, src);
      }
    }
    hide Convert.Convert;
  }

  lemma ArrayRefuses(env: Env, t: GoType, dst: Value, st: GoType, src: Value)
    requires Sane(env) && HasType(dst, t) && HasType(src, st) && Proper(st, t)
    requires t.TArray? && !st.TSlice? && !st.TArray?
    ensures Convert.Convert(env, t, dst, st, src) == Outcome(dst, Some(NotAnArray))
  {
    hide LooksLikeJSON, HasType;
  }

  lemma MapRefuses(env: Env, t: GoType, dst: Value, st: GoType, src: Value)
    requires Sane(env) && HasType(dst, t) && HasType(src, st) && Proper(st, t) && !LooksLikeJSON(env, st, src)
    requires t.TMap?
    ensures var r := Convert.Convert(env, t, dst, st, src);
            && (t.key != TString ==> r == Outcome(dst, Some(OnlyStringKeys)))
            && (t.key == TString && !st.TMap? && !st.TStruct? ==> r == Outcome(dst, Some(NotAMap)))
  {
    hide LooksLikeJSON, HasType;
  }

  lemma StructRefuses(env: Env, t: GoType, dst: Value, st: GoType, src: Value)
    requires Sane(env) && HasType(dst, t) && HasType(src, st) && Proper(st, t) && !LooksLikeJSON(env, st, src)
    requires t.TStruct? && !st.TStruct? && !(st.TMap? && st.key == TString)
    ensures Convert.Convert(env, t, dst, st, src) == Outcome(dst, Some(NotAStruct))
  {
    hide LooksLikeJSON, HasType;
  }

  // ------------------------------------------------ assignment and null values

  /** A value whose type fits is stored as it is; a variable of interface type keeps the type along
      with it. */
  lemma Assigned(env: Env, t: GoType, dst: Value, st: GoType, src: Value)
    requires Sane(env) && HasType(dst, t) && HasType(src, st) && !st.TPtr? && !t.TPtr?
    requires || st == t || t.TAny?
             || (st.TStruct? && t.TStruct? && st.fields == t.fields && (st.name == "" || t.name == ""))
    ensures Convert.Convert(env, t, dst, st, src) == Outcome(if t.TAny? && !st.TAny? then VAny(st, src) else src, None)
  {
    hide HasType;
  }

  /** A struct whose boolean field Valid is false becomes a nil pointer, and nothing else does. */
  lemma NullBecomesNil(env: Env, t: GoType, dst: Value, st: GoType, src: Value)
    requires Sane(env) && HasType(dst, TPtr(t)) && HasType(src, st) && !st.TPtr?
    requires st.TStruct? ==> forall i, j :: 0 <= i < j < |st.fields| ==> st.fields[i].name != st.fields[j].name
    ensures var r := Convert.Convert(env, TPtr(t), dst, st, src);
            && (r.dst == VNil <==>
                  && st.TStruct? && src.VStruct?
                  && exists i :: 0 <= i < |st.fields| && i < |src.fields| && st.fields[i].name == "Valid"
                                 && st.fields[i].typ == TBool && src.fields[i] == VBool(false))
            && (r.dst == VNil ==> r.err == None)
  {
    OneDestinationPointer(env, t, dst, st, src);
    PgNullMeans(st, src);
    hide Convert.Convert, Sane, HasType, PgNull;
  }

  lemma PgNullMeans(st: GoType, src: Value)
    requires HasType(src, st)
    requires st.TStruct? ==> forall i, j :: 0 <= i < j < |st.fields| ==> st.fields[i].name != st.fields[j].name
    ensures PgNull(st, src) <==>
              && st.TStruct? && src.VStruct?
              && exists i :: 0 <= i < |st.fields| && i < |src.fields| && st.fields[i].name == "Valid"
                             && st.fields[i].typ == TBool && src.fields[i] == VBool(false)
  {
    if st.TStruct? {
      StructShape(st, src);
      hide HasType;
      NamedField(st.fields, "Valid");
    }
  }

  lemma {:induction false} NamedField(fields: seq<Field>, name: GoString)
    ensures FieldNamed(fields, name).None? ==> forall i :: 0 <= i < |fields| ==> fields[i].name != name
  {
    if fields != [] {
      NamedField(fields[..|fields| - 1], name);
      assert forall i :: 0 <= i < |fields| - 1 ==> fields[i] == fields[..|fields| - 1][i];
    }
  }
}
