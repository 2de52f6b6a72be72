/** The recursive conversion of copy/struct.go.  A conversion returns what it leaves in the
    destination, also when it fails half-way, together with its error. */
module Convert {
  import opened Text
  import opened Numbers
  import opened GoTypes
  import opened Fields

  /** Library functions the conversion calls, and the order in which a map built by it is ranged over. */
  datatype Env = Env(
    floats: FloatEnv,
    parseFloat: GoString -> Option<Float>,
    parseBool: GoString -> Option<bool>,
    sprint: (GoType, Value) -> GoString,
    trim: GoString -> GoString,
    unmarshal: (GoString, GoType) -> Option<Value>,
    equalFold: (GoString, GoString) -> bool,
    mapOrder: set<GoString> -> seq<GoString>)

  /** What the libraries are relied on for: decoding JSON into a type gives a value of that type,
      and ranging over a map visits every key once. */
  ghost predicate Sane(env: Env) {
    && (forall s, t :: env.unmarshal(s, t).Some? ==> HasType(env.unmarshal(s, t).value, t))
    && (forall keys :: IsOrder(env.mapOrder(keys), keys))
    && (forall f :: IsFloat32(f) ==> env.floats.toFloat32(f) == f)
  }

  datatype Place = Index(i: nat) | Key(k: GoString) | FieldName(name: GoString)

  datatype Problem =
    | NoRule | NotANumber | NotABool | NotJson | OnlyStringKeys | NotAMap | NotAnArray | NotAStruct
    | At(place: Place, cause: Problem)

  datatype Outcome = Outcome(dst: Value, err: Option<Problem>)

  /** Intermediate results that are stored only when all of them are there. */
  datatype Built<T> = Built(parts: seq<T>) | Broken(cause: Problem)

  // ------------------------------------------------------------- simple rules

  /** The text of a string or []byte. */
  function SourceText(st: GoType, src: Value): Option<GoString>
    requires HasType(src, st)
  {
    if IsBytes(st) then
      BytesAreBytes(src);
      Some(StringOf(Elements(src)))
    else if st.TString? then Some(src.s)
    else None
  }

  predicate LooksLikeJSON(env: Env, st: GoType, src: Value)
    requires HasType(src, st)
  {
    var text := SourceText(st, src);
    text.Some? && var s := env.trim(text.value); s != "" && (s[0] == '{' || s[0] == '[')
  }

  function ConvertJSON(env: Env, t: GoType, dst: Value, text: GoString): (r: Outcome)
    requires Sane(env) && HasType(dst, t)
    ensures HasType(r.dst, t)
  {
    if IsBytes(t) then Outcome(VSeq(BytesOf(text)), None)
    else
      var v := env.unmarshal(text, t);
      if v.Some? then Outcome(v.value, None) else Outcome(dst, Some(NotJson))
  }

  function NumberToNumber(env: Env, k: Num, dst: Value, st: GoType, src: Value): (r: Outcome)
    requires HasType(dst, TNum(k)) && HasType(src, st) && (st.TNum? || st.TString?)
    ensures HasType(r.dst, TNum(k))
  {
    var f := if st.TString? then env.parseFloat(env.trim(src.s))
             else if st.kind.IsFloat() then Some(src.f)
             else Some(Fin(RoundF64(src.n) as real));
    if f.None? then Outcome(dst, Some(NotANumber))
    else if k.F32? then Outcome(VFloat(env.floats.toFloat32(f.value)), None)
    else if k.F64? then Outcome(VFloat(f.value), None)
    else Outcome(VInt(IntOf(env.floats, k, f.value)), None)
  }

  function Fallback(env: Env, t: GoType, dst: Value, st: GoType, src: Value): (r: Outcome)
    requires HasType(dst, t) && HasType(src, st)
    ensures HasType(r.dst, t)
  {
    if t.TString? then Outcome(VString(env.sprint(st, src)), None)
    else if t.TBool? && st.TString? then
      var b := env.parseBool(env.trim(src.s));
      if b.Some? then Outcome(VBool(b.value), None) else Outcome(dst, Some(NotABool))
    else if t.TBool? && st.TNum? then
      Outcome(VBool(if st.kind.IsFloat() then src.f != Fin(0.0) else src.n != 0), None)
    else Outcome(dst, Some(NoRule))
  }

  /** The first field with a name. */
  function FieldNamed(fields: seq<Field>, name: GoString): (r: Option<nat>)
    ensures r.Some? ==> r.value < |fields| && fields[r.value].name == name
  {
    if fields == [] then None
    else
      var r := FieldNamed(fields[..|fields| - 1], name);
      if r.Some? then r else if fields[|fields| - 1].name == name then Some(|fields| - 1) else None
  }

  /** A struct that looks like a null of package pgtype: its field Valid is false. */
  predicate PgNull(st: GoType, src: Value)
    requires HasType(src, st)
  {
    st.TStruct? &&
    var i := FieldNamed(st.fields, "Valid");
    i.Some? && st.fields[i.value].typ.TBool? && src.fields[i.value] == VBool(false)
  }

  /** What a non-nil pointer destination points at; a nil one gets a fresh zero value first. */
  function Pointee(t: GoType, dst: Value): (v: Value)
    requires t.TPtr? && HasType(dst, t)
    ensures HasType(v, t.elem)
  {
    if dst.VPtr? then dst.target else Zero(t.elem)
  }

  // ------------------------------------------------------------ from interfaces

  /** Conversion of a value of interface type: it is not unwrapped, so only interface and string
      destinations, and pointers to and slices of them, take it. */
  function ConvertAny(env: Env, t: GoType, dst: Value, src: Value): (r: Outcome)
    requires HasType(dst, t) && HasType(src, TAny)
    ensures HasType(r.dst, t)
    decreases t
  {
    match t
    case TAny => Outcome(src, None)
    case TString => Outcome(VString(env.sprint(TAny, src)), None)
    case TPtr(elem) =>
      var r := ConvertAny(env, elem, Pointee(t, dst), src);
      Outcome(VPtr(r.dst), r.err)
    case TSlice(elem) =>
      var r := ConvertAny(env, elem, Zero(elem), src);
      if r.err.Some? then Outcome(dst, r.err) else Outcome(VSeq([r.dst]), None)
    case TArray(_, _) => Outcome(dst, Some(NotAnArray))
    case TMap(key, _) => Outcome(dst, Some(if key.TString? then NotAMap else OnlyStringKeys))
    case TStruct(_, _) => Outcome(dst, Some(NotAStruct))
    case _ => Outcome(dst, Some(NoRule))
  }

  // ------------------------------------------------------------------ the core

  /** convertAssign: what dst, of type t, holds after assigning src, of type st, to it. */
  function Convert(env: Env, t: GoType, dst: Value, st: GoType, src: Value): (r: Outcome)
    requires Sane(env) && HasType(dst, t) && HasType(src, st)
    ensures HasType(r.dst, t)
    decreases src, t, 3, 0
  {
    if st.TPtr? then
      if src.VNil? then Outcome(Zero(t), None) else Convert(env, t, dst, st.elem, src.target)
    else if t.TPtr? then
      if PgNull(st, src) then Outcome(VNil, None)
      else
        var r := Convert(env, t.elem, Pointee(t, dst), st, src);
        Outcome(VPtr(r.dst), r.err)
    else if Assignable(st, t) then
      StoredHasType(st, t, src);
      Outcome(Stored(st, t, src), None)
    else if st.TAny? then ConvertAny(env, t, dst, src)
    else if (t.TStruct? || t.TMap? || t.TSlice?) && LooksLikeJSON(env, st, src) then
      ConvertJSON(env, t, dst, SourceText(st, src).value)
    else if t.TNum? && (st.TNum? || st.TString?) then NumberToNumber(env, t.kind, dst, st, src)
    else if t.TString? && IsBytes(st) then Outcome(VString(SourceText(st, src).value), None)
    else if IsBytes(t) && st.TString? then Outcome(VSeq(BytesOf(src.s)), None)
    else if t.TSlice? then ConvertSlice(env, t, dst, st, src)
    else if t.TArray? then ConvertArray(env, t, dst, st, src)
    else if t.TMap? then ConvertMap(env, t, dst, st, src)
    else if t.TStruct? then ConvertStruct(env, t, dst, st, src)
    else Fallback(env, t, dst, st, src)
  }

  lemma ElementSet(t: GoType, dst: Value, i: nat, v: Value)
    requires t.TArray? && HasType(dst, t) && i < t.len && HasType(v, t.elem)
    ensures HasType(VSeq(dst.elems[i := v]), t)
  {}

  lemma FieldSet(t: GoType, dst: Value, i: nat, v: Value)
    requires t.TStruct? && HasType(dst, t) && i < |t.fields| && HasType(v, t.fields[i].typ)
    ensures HasType(VStruct(dst.fields[i := v]), t)
  {}

  predicate IsList(t: GoType) { t.TSlice? || t.TArray? }

  function ConvertSlice(env: Env, t: GoType, dst: Value, st: GoType, src: Value): (r: Outcome)
    requires Sane(env) && HasType(dst, t) && HasType(src, st) && t.TSlice?
    ensures HasType(r.dst, t)
    decreases src, t, 2, 0
  {
    if IsList(st) then
      var b := ConvertElements(env, t, st, src, |Elements(src)|);
      if b.Built? then Outcome(VSeq(b.parts), None) else Outcome(dst, Some(b.cause))
    else
      var r := Convert(env, t.elem, Zero(t.elem), st, src);
      if r.err.Some? then Outcome(dst, r.err) else Outcome(VSeq([r.dst]), None)
  }

  ghost predicate TypedParts(parts: seq<Value>, n: nat, elem: GoType) {
    |parts| == n && forall i :: 0 <= i < n ==> HasType(parts[i], elem)
  }

  /** Element i, converted into a fresh zero value after the ones before it. */
  function NextElement(env: Env, t: GoType, st: GoType, src: Value, i: nat, b: Built<Value>): (r: Built<Value>)
    requires Sane(env) && HasType(src, st) && t.TSlice? && IsList(st) && i < |Elements(src)|
    requires b.Built? ==> TypedParts(b.parts, i, t.elem)
    ensures b.Broken? ==> r == b
    ensures r.Built? ==> TypedParts(r.parts, i + 1, t.elem)
    decreases src, t, 0, 0
  {
    if b.Broken? then b
    else
      var o := Convert(env, t.elem, Zero(t.elem), st.elem, Elements(src)[i]);
      if o.err.Some? then Broken(At(Index(i), o.err.value)) else Built(b.parts + [o.dst])
  }

  /** The first n elements. */
  function ConvertElements(env: Env, t: GoType, st: GoType, src: Value, n: nat): (b: Built<Value>)
    requires Sane(env) && HasType(src, st) && t.TSlice? && IsList(st) && n <= |Elements(src)|
    ensures b.Built? ==> TypedParts(b.parts, n, t.elem)
    decreases src, t, 1, n
  {
    if n == 0 then Built([]) else NextElement(env, t, st, src, n - 1, ConvertElements(env, t, st, src, n - 1))
  }

  function ConvertArray(env: Env, t: GoType, dst: Value, st: GoType, src: Value): (r: Outcome)
    requires Sane(env) && HasType(dst, t) && HasType(src, st) && t.TArray?
    ensures HasType(r.dst, t)
    decreases src, t, 2, 0
  {
    if IsList(st) then
      ConvertInPlace(env, t, dst, st, src, if t.len < |Elements(src)| then t.len else |Elements(src)|)
    else Outcome(dst, Some(NotAnArray))
  }

  /** Element i, converted in the destination itself after the ones before it. */
  function NextInPlace(env: Env, t: GoType, st: GoType, src: Value, i: nat, before: Outcome): (r: Outcome)
    requires Sane(env) && HasType(before.dst, t) && HasType(src, st) && t.TArray? && IsList(st)
    requires i < |Elements(src)| && i < t.len
    ensures before.err.Some? ==> r == before
    ensures HasType(r.dst, t)
    decreases src, t, 0, 0
  {
    if before.err.Some? then before
    else
      var o := Convert(env, t.elem, before.dst.elems[i], st.elem, Elements(src)[i]);
      ElementSet(t, before.dst, i, o.dst);
      Outcome(VSeq(before.dst.elems[i := o.dst]), if o.err.Some? then Some(At(Index(i), o.err.value)) else None)
  }

  /** The first n elements. */
  function ConvertInPlace(env: Env, t: GoType, dst: Value, st: GoType, src: Value, n: nat): (r: Outcome)
    requires Sane(env) && HasType(dst, t) && HasType(src, st) && t.TArray? && IsList(st)
    requires n <= |Elements(src)| && n <= t.len
    ensures HasType(r.dst, t)
    decreases src, t, 1, n
  {
    if n == 0 then Outcome(dst, None)
    else NextInPlace(env, t, st, src, n - 1, ConvertInPlace(env, t, dst, st, src, n - 1))
  }

  /** SetMapIndex. */
  function Put(entries: seq<Entry>, k: Value, v: Value): seq<Entry> {
    if entries == [] then [Entry(k, v)]
    else if entries[0].key == k then [Entry(k, v)] + entries[1..]
    else [entries[0]] + Put(entries[1..], k, v)
  }

  ghost predicate TypedEntries(entries: seq<Entry>, elem: GoType) {
    DistinctKeys(entries) && forall e :: e in entries ==> HasType(e.key, TString) && HasType(e.val, elem)
  }

  lemma {:induction false} PutMembers(entries: seq<Entry>, k: Value, v: Value)
    requires DistinctKeys(entries)
    ensures DistinctKeys(Put(entries, k, v))
    ensures forall e :: e in Put(entries, k, v) <==> e == Entry(k, v) || (e in entries && e.key != k)
  {
    if entries != [] {
      assert forall e :: e in entries <==> e == entries[0] || e in entries[1..];
      if entries[0].key == k {
        assert forall e :: e in entries[1..] ==> e.key != k;
      } else {
        PutMembers(entries[1..], k, v);
        assert forall e :: e in entries[1..] ==> e.key != entries[0].key;
        var rest := Put(entries[1..], k, v);
        assert forall i :: 0 <= i < |rest| ==> rest[i] in rest && rest[i].key != entries[0].key;
      }
    }
  }

  lemma PutTyped(entries: seq<Entry>, k: GoString, v: Value, elem: GoType)
    requires TypedEntries(entries, elem) && HasType(v, elem)
    ensures TypedEntries(Put(entries, VString(k), v), elem)
  {
    PutMembers(entries, VString(k), v);
  }

  lemma TypedEntriesHaveType(entries: seq<Entry>, elem: GoType)
    requires TypedEntries(entries, elem)
    ensures HasType(VMap(entries), TMap(TString, elem))
  {
    assert forall i :: 0 <= i < |entries| ==> entries[i] in entries;
  }

  function ConvertMap(env: Env, t: GoType, dst: Value, st: GoType, src: Value): (r: Outcome)
    requires Sane(env) && HasType(dst, t) && HasType(src, st) && t.TMap?
    ensures HasType(r.dst, t)
    decreases src, t, 2, 0
  {
    if !t.key.TString? then Outcome(dst, Some(OnlyStringKeys))
    else if st.TMap? || st.TStruct? then
      var b := if st.TMap? then ConvertEntries(env, t, st, src, |Entries(src)|) else FromStruct(env, t, st, src);
      if b.Broken? then Outcome(dst, Some(b.cause))
      else
        TypedEntriesHaveType(b.parts, t.elem);
        Outcome(VMap(b.parts), None)
    else Outcome(dst, Some(NotAMap))
  }

  function KeyText(env: Env, kt: GoType, k: Value): GoString
    requires HasType(k, kt)
  {
    if kt.TString? then k.s else env.sprint(kt, k)
  }

  /** Entry i of a map, put into a fresh one after the ones before it. */
  function NextEntry(env: Env, t: GoType, st: GoType, src: Value, i: nat, b: Built<Entry>): (r: Built<Entry>)
    requires Sane(env) && HasType(src, st) && t.TMap? && st.TMap? && i < |Entries(src)|
    requires b.Built? ==> TypedEntries(b.parts, t.elem)
    ensures b.Broken? ==> r == b
    ensures r.Built? ==> TypedEntries(r.parts, t.elem)
    decreases src, t, 0, 0
  {
    if b.Broken? then b
    else
      var e := Entries(src)[i];
      var key := KeyText(env, st.key, e.key);
      var o := Convert(env, t.elem, Zero(t.elem), st.elem, e.val);
      if o.err.Some? then Broken(At(Key(key), o.err.value))
      else
        PutTyped(b.parts, key, o.dst, t.elem);
        Built(Put(b.parts, VString(key), o.dst))
  }

  /** The first n entries. */
  function ConvertEntries(env: Env, t: GoType, st: GoType, src: Value, n: nat): (b: Built<Entry>)
    requires Sane(env) && HasType(src, st) && t.TMap? && st.TMap? && n <= |Entries(src)|
    ensures b.Built? ==> TypedEntries(b.parts, t.elem)
    decreases src, t, 1, n
  {
    if n == 0 then Built([]) else NextEntry(env, t, st, src, n - 1, ConvertEntries(env, t, st, src, n - 1))
  }

  /** Every candidate name of every field. */
  function AllNames(fields: seq<Field>): (names: set<GoString>)
    ensures forall nm: GoString :: nm in names <==> exists f :: f in fields && Owns(f, nm)
  {
    set f, nm | f in fields && nm in FieldNames(f) :: nm
  }

  lemma NamesHaveOwners(fields: seq<Field>, nm: GoString)
    ensures nm in AllNames(fields) <==> FirstOwner(fields, nm).Some?
  {
    if nm in AllNames(fields) {
      var f :| f in fields && Owns(f, nm);
      var i :| 0 <= i < |fields| && fields[i] == f;
    }
  }

  /** A field's value as structToStringMap stores it: in an interface. */
  function Interfaced(st: GoType, src: Value, i: nat): (v: Value)
    requires st.TStruct? && HasType(src, st) && i < |st.fields|
    ensures HasType(v, TAny)
  {
    StoredHasType(st.fields[i].typ, TAny, src.fields[i]);
    Stored(st.fields[i].typ, TAny, src.fields[i])
  }

  /** A name of a struct with the value of the field it stands for, put into a fresh map. */
  function NextName(env: Env, t: GoType, st: GoType, src: Value, nm: GoString, b: Built<Entry>): (r: Built<Entry>)
    requires HasType(src, st) && t.TMap? && st.TStruct? && FirstOwner(st.fields, nm).Some?
    requires b.Built? ==> TypedEntries(b.parts, t.elem)
    ensures b.Broken? ==> r == b
    ensures r.Built? ==> TypedEntries(r.parts, t.elem)
  {
    if b.Broken? then b
    else
      var o := ConvertAny(env, t.elem, Zero(t.elem), Interfaced(st, src, FirstOwner(st.fields, nm).value));
      if o.err.Some? then Broken(o.err.value)
      else
        PutTyped(b.parts, nm, o.dst, t.elem);
        Built(Put(b.parts, VString(nm), o.dst))
  }

  ghost predicate AreNames(names: seq<GoString>, fields: seq<Field>) {
    forall nm :: nm in names ==> FirstOwner(fields, nm).Some?
  }

  /** The first n names. */
  function ConvertNamed(env: Env, t: GoType, st: GoType, src: Value, order: seq<GoString>, n: nat): (b: Built<Entry>)
    requires HasType(src, st) && t.TMap? && st.TStruct? && AreNames(order, st.fields) && n <= |order|
    ensures b.Built? ==> TypedEntries(b.parts, t.elem)
    decreases n
  {
    if n == 0 then Built([])
    else NextName(env, t, st, src, order[n - 1], ConvertNamed(env, t, st, src, order, n - 1))
  }

  /** The names of a struct in the order in which the map of structToStringMap is ranged over. */
  function NameOrder(env: Env, fields: seq<Field>): (names: seq<GoString>)
    requires Sane(env)
    ensures IsOrder(names, AllNames(fields)) && AreNames(names, fields)
  {
    var names := env.mapOrder(AllNames(fields));
    assert IsOrder(names, AllNames(fields));
    assert AreNames(names, fields) by {
      forall nm | nm in names ensures FirstOwner(fields, nm).Some? {
        NamesHaveOwners(fields, nm);
      }
    }
    names
  }

  function FromStruct(env: Env, t: GoType, st: GoType, src: Value): (b: Built<Entry>)
    requires Sane(env) && HasType(src, st) && t.TMap? && st.TStruct?
    ensures b.Built? ==> TypedEntries(b.parts, t.elem)
  {
    var order := NameOrder(env, st.fields);
    ConvertNamed(env, t, st, src, order, |order|)
  }

  function ConvertStruct(env: Env, t: GoType, dst: Value, st: GoType, src: Value): (r: Outcome)
    requires Sane(env) && HasType(dst, t) && HasType(src, st) && t.TStruct?
    ensures HasType(r.dst, t)
    decreases src, t, 2, 0
  {
    if FillsStructs(st) then ConvertFields(env, t, dst, st, src, |t.fields|)
    else Outcome(dst, Some(NotAStruct))
  }

  /** The key of an entry equals one of some names but for case. */
  predicate Folds(env: Env, e: Entry, names: seq<GoString>) {
    e.key.VString? && exists nm :: nm in names && env.equalFold(e.key.s, nm)
  }

  function FoldedEntry(env: Env, entries: seq<Entry>, names: seq<GoString>): (r: Option<nat>)
    ensures r.Some? ==> r.value < |entries| && Folds(env, entries[r.value], names)
    ensures forall i :: 0 <= i < |entries| && Folds(env, entries[i], names) ==> r.Some? && r.value <= i
  {
    if entries == [] then None
    else
      var n := |entries| - 1;
      assert forall i :: 0 <= i < n ==> entries[i] == entries[..n][i];
      var r := FoldedEntry(env, entries[..n], names);
      if r.Some? then r else if Folds(env, entries[n], names) then Some(n) else None
  }

  /** What a struct can be filled from. */
  predicate FillsStructs(st: GoType) { st.TStruct? || (st.TMap? && st.key.TString?) }

  /** The type and value that fill a destination field, if any. */
  function Filling(env: Env, f: Field, st: GoType, src: Value): (r: Option<(GoType, Value)>)
    requires HasType(src, st) && FillsStructs(st)
    ensures r.Some? ==> HasType(r.value.1, r.value.0) && r.value.1 < src
  {
    if st.TStruct? then
      var i := SourceOf(st.fields, f);
      if i.None? then None else Some((st.fields[i.value].typ, src.fields[i.value]))
    else
      var i := FoldedEntry(env, Entries(src), FieldNames(f));
      if i.None? then None else Some((st.elem, Entries(src)[i.value].val))
  }

  /** Field i of a struct, filled in the destination itself after the ones before it, if something
      fills it. */
  function NextField(env: Env, t: GoType, st: GoType, src: Value, i: nat, before: Outcome): (r: Outcome)
    requires Sane(env) && HasType(before.dst, t) && HasType(src, st) && t.TStruct? && i < |t.fields|
    requires FillsStructs(st)
    ensures before.err.Some? ==> r == before
    ensures HasType(r.dst, t)
    decreases src, t, 0, 0
  {
    var f := t.fields[i];
    var from := Filling(env, f, st, src);
    if before.err.Some? || from.None? then before
    else
      var o := Convert(env, f.typ, before.dst.fields[i], from.value.0, from.value.1);
      FieldSet(t, before.dst, i, o.dst);
      Outcome(VStruct(before.dst.fields[i := o.dst]),
              if o.err.Some? then Some(At(FieldName(f.name), o.err.value)) else None)
  }

  /** The first n fields. */
  function ConvertFields(env: Env, t: GoType, dst: Value, st: GoType, src: Value, n: nat): (r: Outcome)
    requires Sane(env) && HasType(dst, t) && HasType(src, st) && t.TStruct? && n <= |t.fields|
    requires FillsStructs(st)
    ensures HasType(r.dst, t)
    decreases src, t, 1, n
  {
    if n == 0 then Outcome(dst, None)
    else NextField(env, t, st, src, n - 1, ConvertFields(env, t, dst, st, src, n - 1))
  }
}
