/** The Go types and values that copy/struct.go sees through reflection: finite types without
    methods, exported fields only, and values without cycles. */
module GoTypes {
  import opened Numbers

  predicate IsByteString(s: string) { forall i :: 0 <= i < |s| ==> s[i] as int < 256 }

  /** Go strings are sequences of bytes. */
  type GoString = s: string | IsByteString(s)

  /** db and json are the struct tags; a missing tag is "". */
  datatype Field = Field(name: GoString, db: GoString, json: GoString, typ: GoType)

  datatype GoType =
    | TBool
    | TNum(kind: Num)
    | TString
    | TPtr(elem: GoType)
    | TSlice(elem: GoType)
    | TArray(len: nat, elem: GoType)
    | TMap(key: GoType, elem: GoType)
    | TStruct(name: GoString, fields: seq<Field>)   // "" for an unnamed struct type
    | TAny

  datatype Entry = Entry(key: Value, val: Value)

  /** VNil is the nil pointer, slice, map or interface.  The entries of a map stand in the order
      in which the map is ranged over. */
  datatype Value =
    | VBool(b: bool)
    | VInt(n: int)
    | VFloat(f: Float)
    | VString(s: GoString)
    | VNil
    | VPtr(target: Value)
    | VSeq(elems: seq<Value>)
    | VMap(entries: seq<Entry>)
    | VStruct(fields: seq<Value>)
    | VAny(typ: GoType, value: Value)

  predicate DistinctKeys(entries: seq<Entry>) {
    forall i, j :: 0 <= i < j < |entries| ==> entries[i].key != entries[j].key
  }

  /** A value is a well-formed value of a type. */
  predicate HasType(v: Value, t: GoType)
    decreases v
  {
    match t
    case TBool => v.VBool?
    case TNum(k) => if k.IsFloat() then v.VFloat? else v.VInt? && InRange(k, v.n)
    case TString => v.VString?
    case TPtr(elem) => v.VNil? || (v.VPtr? && HasType(v.target, elem))
    case TSlice(elem) => v.VNil? || (v.VSeq? && forall i :: 0 <= i < |v.elems| ==> HasType(v.elems[i], elem))
    case TArray(n, elem) => v.VSeq? && |v.elems| == n && forall i :: 0 <= i < |v.elems| ==> HasType(v.elems[i], elem)
    case TMap(key, elem) =>
      || v.VNil?
      || (&& v.VMap? && DistinctKeys(v.entries)
          && forall i :: 0 <= i < |v.entries| ==> HasType(v.entries[i].key, key) && HasType(v.entries[i].val, elem))
    case TStruct(_, fields) =>
      v.VStruct? && |v.fields| == |fields| && forall i :: 0 <= i < |v.fields| ==> HasType(v.fields[i], fields[i].typ)
    case TAny => v.VNil? || (v.VAny? && !v.typ.TAny? && HasType(v.value, v.typ))
  }

  /** False, zero, empty, nil, or made of such values. */
  predicate IsZero(v: Value) {
    match v
    case VBool(b) => !b
    case VInt(n) => n == 0
    case VFloat(f) => f == Fin(0.0)
    case VString(s) => s == ""
    case VNil => true
    case VSeq(elems) => forall i :: 0 <= i < |elems| ==> IsZero(elems[i])
    case VStruct(fields) => forall i :: 0 <= i < |fields| ==> IsZero(fields[i])
    case _ => false
  }

  /** reflect.Zero: only an array is a sequence then; a slice is nil. */
  function Zero(t: GoType): (v: Value)
    ensures HasType(v, t) && IsZero(v)
    ensures v.VSeq? ==> t.TArray?
  {
    match t
    case TBool => VBool(false)
    case TNum(k) => if k.IsFloat() then VFloat(Fin(0.0)) else VInt(0)
    case TString => VString("")
    case TArray(n, elem) => var z := Zero(elem); VSeq(seq(n, _ => z))
    case TStruct(_, fields) => VStruct(seq(|fields|, i requires 0 <= i < |fields| => Zero(fields[i].typ)))
    case _ => VNil
  }

  /** The values a slice or an array holds. */
  function Elements(v: Value): seq<Value> { if v.VSeq? then v.elems else [] }

  function Entries(v: Value): seq<Entry> { if v.VMap? then v.entries else [] }

  predicate IsBytes(t: GoType) { t.TSlice? && t.elem == TNum(U8) }

  function BytesOf(s: GoString): seq<Value> { seq(|s|, i requires 0 <= i < |s| => VInt(s[i] as int)) }

  predicate IsByte(v: Value) { v.VInt? && 0 <= v.n < 256 }

  function CharOf(v: Value): (c: char)
    requires IsByte(v)
    ensures c as int == v.n
  {
    v.n as char
  }

  function StringOf(elems: seq<Value>): (s: GoString)
    requires forall i :: 0 <= i < |elems| ==> IsByte(elems[i])
    ensures |s| == |elems| && forall i :: 0 <= i < |s| ==> IsByte(elems[i]) && s[i] as int == elems[i].n
  {
    var s := seq(|elems|, i requires 0 <= i < |elems| && IsByte(elems[i]) => CharOf(elems[i]));
    assert forall i :: 0 <= i < |s| ==> IsByte(elems[i]) && s[i] == CharOf(elems[i]);
    s
  }

  lemma BytesAreBytes(v: Value)
    requires HasType(v, TSlice(TNum(U8)))
    ensures forall i :: 0 <= i < |Elements(v)| ==> IsByte(Elements(v)[i])
  {
    assert forall i :: 0 <= i < |Elements(v)| ==> HasType(Elements(v)[i], TNum(U8));
  }

  /** []byte(s) and string(b) undo each other. */
  lemma BytesRoundTrip(s: GoString, elems: seq<Value>)
    requires forall i :: 0 <= i < |elems| ==> IsByte(elems[i])
    ensures HasType(VSeq(BytesOf(s)), TSlice(TNum(U8)))
    ensures StringOf(BytesOf(s)) == s
    ensures BytesOf(StringOf(elems)) == elems
  {}

  /** Whether a value of one type can be stored in a variable of another without conversion. */
  predicate Assignable(src: GoType, dst: GoType) {
    || dst.TAny?
    || src == dst
    || (src.TStruct? && dst.TStruct? && src.fields == dst.fields && (src.name == "" || dst.name == ""))
  }

  /** What is stored then: an interface variable keeps the type along with the value. */
  function Stored(src: GoType, dst: GoType, v: Value): Value {
    if dst.TAny? && !src.TAny? then VAny(src, v) else v
  }

  lemma StoredHasType(src: GoType, dst: GoType, v: Value)
    requires Assignable(src, dst) && HasType(v, src)
    ensures HasType(Stored(src, dst, v), dst)
  {}
}
