/** What arrays, maps and structs hold after a conversion, in terms of the conversions of their parts
    and of names and tags. */
module ConvertContents {
  import opened Text
  import opened GoTypes
  import opened Fields
  import opened FieldMatching
  import opened Convert
  import opened ConvertSteps
  import opened ConvertMeaning

  // ------------------------------------------------------------------- arrays

  /** What becomes of one place of an array, on its own. */
  function PlaceOutcome(env: Env, t: GoType, dst: Value, st: GoType, src: Value, i: nat): (o: Outcome)
    requires Sane(env) && HasType(dst, t) && HasType(src, st) && t.TArray? && IsList(st)
    requires i < t.len && i < |Elements(src)|
    ensures HasType(o.dst, t.elem)
  {
    Convert.Convert(env, t.elem, dst.elems[i], st.elem, Elements(src)[i])
  }

  /** The first n places hold their outcomes, the others what they held. */
  ghost predicate PlacedTo(env: Env, t: GoType, dst: Value, st: GoType, src: Value, v: Value, n: nat)
    requires Sane(env) && HasType(dst, t) && HasType(src, st) && t.TArray? && IsList(st)
    requires n <= t.len && n <= |Elements(src)|
  {
    && v.VSeq? && |v.elems| == t.len
    && (forall i :: 0 <= i < n ==> v.elems[i] == PlaceOutcome(env, t, dst, st, src, i).dst)
    && (forall i :: n <= i < t.len ==> v.elems[i] == dst.elems[i])
  }

  ghost predicate AllPlaced(env: Env, t: GoType, dst: Value, st: GoType, src: Value, n: nat)
    requires Sane(env) && HasType(dst, t) && HasType(src, st) && t.TArray? && IsList(st)
    requires n <= t.len && n <= |Elements(src)|
  {
    forall i :: 0 <= i < n ==> PlaceOutcome(env, t, dst, st, src, i).err.None?
  }

  ghost predicate PlacingStops(env: Env, t: GoType, dst: Value, st: GoType, src: Value, r: Outcome, k: nat)
    requires Sane(env) && HasType(dst, t) && HasType(src, st) && t.TArray? && IsList(st)
    requires k < t.len && k < |Elements(src)|
  {
    var o := PlaceOutcome(env, t, dst, st, src, k);
    && o.err.Some? && AllPlaced(env, t, dst, st, src, k)
    && PlacedTo(env, t, dst, st, src, r.dst, k + 1) && r.err == Some(At(Index(k), o.err.value))
  }

  ghost predicate PlacesDone(env: Env, t: GoType, dst: Value, st: GoType, src: Value, r: Outcome, n: nat)
    requires Sane(env) && HasType(dst, t) && HasType(src, st) && t.TArray? && IsList(st)
    requires n <= t.len && n <= |Elements(src)|
  {
    if r.err.None? then AllPlaced(env, t, dst, st, src, n) && PlacedTo(env, t, dst, st, src, r.dst, n)
    else exists k :: 0 <= k < n && PlacingStops(env, t, dst, st, src, r, k)
  }

  lemma PlacesDoneMore(env: Env, t: GoType, dst: Value, st: GoType, src: Value, b: Outcome, r: Outcome, i: nat)
    requires Sane(env) && HasType(dst, t) && HasType(src, st) && t.TArray? && IsList(st)
    requires i < t.len && i < |Elements(src)| && PlacesDone(env, t, dst, st, src, b, i)
    requires b.err.Some? ==> r == b
    requires b.err.None? ==> b.dst.VSeq? && |b.dst.elems| == t.len && dst.VSeq? && |dst.elems| == t.len
    requires b.err.None? && b.dst.elems[i] == dst.elems[i] ==>
               var o := PlaceOutcome(env, t, dst, st, src, i);
               r == Outcome(VSeq(b.dst.elems[i := o.dst]),
                            if o.err.Some? then Some(At(Index(i), o.err.value)) else None)
    ensures PlacesDone(env, t, dst, st, src, r, i + 1)
  {
    hide Sane, HasType, PlaceOutcome;
    if b.err.None? {
      var o := PlaceOutcome(env, t, dst, st, src, i);
      assert PlacedTo(env, t, dst, st, src, r.dst, i + 1);
      assert o.err.Some? ==> PlacingStops(env, t, dst, st, src, r, i);
    }
  }

  lemma PlaceStep(env: Env, t: GoType, dst: Value, st: GoType, src: Value, i: nat)
    requires Sane(env) && HasType(dst, t) && HasType(src, st) && t.TArray? && IsList(st)
    requires i < t.len && i < |Elements(src)|
    ensures dst.VSeq? && |dst.elems| == t.len
    ensures var b, r := ConvertInPlace(env, t, dst, st, src, i), ConvertInPlace(env, t, dst, st, src, i + 1);
            var o := PlaceOutcome(env, t, dst, st, src, i);
            && b.dst.VSeq? && |b.dst.elems| == t.len
            && (b.err.Some? ==> r == b)
            && (b.err.None? && b.dst.elems[i] == dst.elems[i] ==>
                  r == Outcome(VSeq(b.dst.elems[i := o.dst]),
                               if o.err.Some? then Some(At(Index(i), o.err.value)) else None))
  {
    InPlaceStep(env, t, dst, st, src, i);
    ArrayShape(t, dst);
    hide ConvertInPlace, Convert.Convert, Sane, HasType;
  }

  lemma NothingPlaced(env: Env, t: GoType, dst: Value, st: GoType, src: Value)
    requires Sane(env) && HasType(dst, t) && HasType(src, st) && t.TArray? && IsList(st)
    ensures PlacesDone(env, t, dst, st, src, ConvertInPlace(env, t, dst, st, src, 0), 0)
  {
    ArrayShape(t, dst);
    ArrayCases(env, t, dst, st, src);
    hide ConvertInPlace, Sane, HasType, PlaceOutcome;
  }

  lemma {:induction false} PlacesAre(env: Env, t: GoType, dst: Value, st: GoType, src: Value, n: nat)
    requires Sane(env) && HasType(dst, t) && HasType(src, st) && t.TArray? && IsList(st)
    requires n <= t.len && n <= |Elements(src)|
    ensures PlacesDone(env, t, dst, st, src, ConvertInPlace(env, t, dst, st, src, n), n)
  {
    hide *;
    if n == 0 {
      NothingPlaced(env, t, dst, st, src);
    } else {
      PlacesAre(env, t, dst, st, src, n - 1);
      PlaceStep(env, t, dst, st, src, n - 1);
      PlacesDoneMore(env, t, dst, st, src, ConvertInPlace(env, t, dst, st, src, n - 1),
                     ConvertInPlace(env, t, dst, st, src, n), n - 1);
    }
  }

  /** An array is filled in place from a list, as far as both reach: places before the first element
      that fails hold their conversions, and the places after keep what they held. */
  lemma ArrayFilledInOrder(env: Env, t: GoType, dst: Value, st: GoType, src: Value)
    requires Sane(env) && HasType(dst, t) && HasType(src, st) && t.TArray? && IsList(st) && !Assignable(st, t)
    ensures var n := if t.len < |Elements(src)| then t.len else |Elements(src)|;
            PlacesDone(env, t, dst, st, src, Convert.Convert(env, t, dst, st, src), n)
  {
    ArrayReached(env, t, dst, st, src);
    ArrayCases(env, t, dst, st, src);
    hide Convert.Convert, Sane, HasType, PlacesDone, ConvertInPlace, ConvertArray;
    PlacesAre(env, t, dst, st, src, if t.len < |Elements(src)| then t.len else |Elements(src)|);
  }

  lemma ArrayReached(env: Env, t: GoType, dst: Value, st: GoType, src: Value)
    requires Sane(env) && HasType(dst, t) && HasType(src, st) && t.TArray? && IsList(st) && !Assignable(st, t)
    ensures Convert.Convert(env, t, dst, st, src) == ConvertArray(env, t, dst, st, src)
  {
    hide HasType, ConvertArray;
  }

  // ----------------------------------------------------- maps, whatever their keys

  /** The text under which an entry is stored: its key, or what its key prints as. */
  function TextOf(env: Env, st: GoType, src: Value, i: nat): GoString
    requires HasType(src, st) && st.TMap? && i < |Entries(src)|
  {
    EntryTyped(st, src, i);
    if st.key == TString then Entries(src)[i].key.s else env.sprint(st.key, Entries(src)[i].key)
  }

  lemma EntryTyped(st: GoType, src: Value, i: nat)
    requires HasType(src, st) && st.TMap? && i < |Entries(src)|
    ensures HasType(Entries(src)[i].key, st.key) && HasType(Entries(src)[i].val, st.elem)
    ensures st.key == TString ==> Entries(src)[i].key.VString?
  {}

  /** Entry i is the last of the first n that is stored under its text. */
  ghost predicate LastUnder(env: Env, st: GoType, src: Value, n: nat, i: nat)
    requires HasType(src, st) && st.TMap? && n <= |Entries(src)| && i < n
  {
    forall j :: i < j < n ==> TextOf(env, st, src, j) != TextOf(env, st, src, i)
  }

  /** Each entry stored under its text, later ones in place of earlier ones. */
  ghost predicate StoredTo(env: Env, t: GoType, st: GoType, src: Value, parts: seq<Entry>, n: nat)
    requires Sane(env) && HasType(src, st) && st.TMap? && n <= |Entries(src)|
  {
    && DistinctKeys(parts)
    && (forall i :: 0 <= i < n ==> EntryOutcome(env, t, st, src, i).err.None?)
    && (forall i :: 0 <= i < n && LastUnder(env, st, src, n, i) ==> StoredAs(env, t, st, src, i) in parts)
    && (forall p :: p in parts ==>
          exists i :: 0 <= i < n && LastUnder(env, st, src, n, i) && p == StoredAs(env, t, st, src, i))
  }

  function StoredAs(env: Env, t: GoType, st: GoType, src: Value, i: nat): Entry
    requires Sane(env) && HasType(src, st) && st.TMap? && i < |Entries(src)|
  {
    Entry(VString(TextOf(env, st, src, i)), EntryOutcome(env, t, st, src, i).dst)
  }

  ghost predicate StoringStops(env: Env, t: GoType, st: GoType, src: Value, cause: Problem, k: nat)
    requires Sane(env) && HasType(src, st) && st.TMap? && k < |Entries(src)|
  {
    && (forall i :: 0 <= i < k ==> EntryOutcome(env, t, st, src, i).err.None?)
    && EntryOutcome(env, t, st, src, k).err.Some?
    && cause == At(Key(TextOf(env, st, src, k)), EntryOutcome(env, t, st, src, k).err.value)
  }

  /** Of the entries that were last under their text, those remain that the next one does not replace. */
  lemma LastMore(env: Env, t: GoType, st: GoType, src: Value, n: nat)
    requires Sane(env) && HasType(src, st) && st.TMap? && n < |Entries(src)|
    ensures LastUnder(env, st, src, n + 1, n)
    ensures forall i :: 0 <= i < n ==>
              (LastUnder(env, st, src, n + 1, i) <==>
                 LastUnder(env, st, src, n, i) && StoredAs(env, t, st, src, i).key != StoredAs(env, t, st, src, n).key)
  {
    hide Sane, HasType, EntryOutcome, TextOf;
  }

  lemma StoredMore(env: Env, t: GoType, st: GoType, src: Value, parts: seq<Entry>, n: nat)
    requires Sane(env) && HasType(src, st) && st.TMap? && n < |Entries(src)|
    requires StoredTo(env, t, st, src, parts, n) && EntryOutcome(env, t, st, src, n).err.None?
    ensures StoredTo(env, t, st, src,
                     Put(parts, VString(TextOf(env, st, src, n)), EntryOutcome(env, t, st, src, n).dst), n + 1)
  {
    var e := StoredAs(env, t, st, src, n);
    PutMembers(parts, e.key, e.val);
    LastMore(env, t, st, src, n);
    assert e == Entry(VString(TextOf(env, st, src, n)), EntryOutcome(env, t, st, src, n).dst);
    hide Sane, HasType, EntryOutcome, TextOf, Put, LastUnder, StoredAs;
    var after := Put(parts, e.key, e.val);
    forall p | p in after
      ensures exists i :: 0 <= i < n + 1 && LastUnder(env, st, src, n + 1, i) && p == StoredAs(env, t, st, src, i)
    {
      if p != e {
        var i :| 0 <= i < n && LastUnder(env, st, src, n, i) && p == StoredAs(env, t, st, src, i);
        assert LastUnder(env, st, src, n + 1, i);
      }
    }
  }

  lemma KeyTextIs(env: Env, st: GoType, src: Value, i: nat)
    requires HasType(src, st) && st.TMap? && i < |Entries(src)|
    ensures HasType(Entries(src)[i].key, st.key) && KeyText(env, st.key, Entries(src)[i].key) == TextOf(env, st, src, i)
  {
    EntryTyped(st, src, i);
    hide HasType;
  }

  lemma NothingStored(env: Env, t: GoType, st: GoType, src: Value)
    requires Sane(env) && HasType(src, st) && st.TMap?
    ensures StoredTo(env, t, st, src, [], 0)
  {
    hide Sane, HasType, EntryOutcome, TextOf;
  }

  lemma {:induction false} StoredIs(env: Env, t: GoType, st: GoType, src: Value, n: nat)
    requires Sane(env) && HasType(src, st) && t.TMap? && st.TMap? && n <= |Entries(src)|
    ensures var b := ConvertEntries(env, t, st, src, n);
            && (b.Built? ==> StoredTo(env, t.elem, st, src, b.parts, n))
            && (b.Broken? ==> exists k :: 0 <= k < n && StoringStops(env, t.elem, st, src, b.cause, k))
  {
    hide *;
    if n == 0 {
      NoEntries(env, t, st, src);
      NothingStored(env, t.elem, st, src);
    } else {
      StoredIs(env, t, st, src, n - 1);
      EntryStep(env, t, st, src, n - 1);
      KeyTextIs(env, st, src, n - 1);
      var b, o := ConvertEntries(env, t, st, src, n - 1), EntryOutcome(env, t.elem, st, src, n - 1);
      if b.Built? {
        if o.err.None? {
          StoredMore(env, t.elem, st, src, b.parts, n - 1);
        } else {
          StopsHere(env, t.elem, st, src, b.parts, n - 1);
        }
      }
    }
  }

  lemma StopsHere(env: Env, t: GoType, st: GoType, src: Value, parts: seq<Entry>, n: nat)
    requires Sane(env) && HasType(src, st) && st.TMap? && n < |Entries(src)|
    requires StoredTo(env, t, st, src, parts, n) && EntryOutcome(env, t, st, src, n).err.Some?
    ensures StoringStops(env, t, st, src,
                         At(Key(TextOf(env, st, src, n)), EntryOutcome(env, t, st, src, n).err.value), n)
  {
    hide Sane, HasType, EntryOutcome, TextOf;
  }

  /** A map, with keys of any type, into a map with string keys: each value converted under its key's
      text, the last where texts are the same; at the first value that fails nothing is stored. */
  lemma MapContents(env: Env, t: GoType, dst: Value, st: GoType, src: Value)
    requires Sane(env) && HasType(dst, t) && HasType(src, st) && !Assignable(st, t)
    requires t.TMap? && t.key == TString && st.TMap?
    ensures var r, n := Convert.Convert(env, t, dst, st, src), |Entries(src)|;
            && (r.err.None? ==> r.dst.VMap? && StoredTo(env, t.elem, st, src, r.dst.entries, n))
            && (r.err.Some? ==>
                  r.dst == dst && exists k :: 0 <= k < n && StoringStops(env, t.elem, st, src, r.err.value, k))
  {
    MapsReachEntries(env, t, dst, st, src);
    hide *;
    StoredIs(env, t, st, src, |Entries(src)|);
    MapCases(env, t, dst, st, src);
  }

  // ------------------------------------------------------------ structs as maps

  /** Some field answers to the name; the first such field is number i. */
  ghost predicate NamesField(st: GoType, nm: GoString, i: nat) {
    st.TStruct? && FirstToAnswer(st.fields, nm, i)
  }

  /** A field's value in a variable of interface type. */
  function InInterface(st: GoType, src: Value, i: nat): (v: Value)
    requires st.TStruct? && HasType(src, st) && i < |st.fields|
    ensures HasType(v, TAny)
  {
    StructShape(st, src);
    if st.fields[i].typ.TAny? then src.fields[i] else VAny(st.fields[i].typ, src.fields[i])
  }

  /** What a name becomes: the conversion of the first field that answers to it. */
  ghost predicate EntryFor(env: Env, t: GoType, st: GoType, src: Value, p: Entry)
    requires Sane(env) && HasType(src, st) && st.TStruct?
  {
    exists nm, i: nat :: NamesField(st, nm, i) && IsEntryFor(env, t, st, src, p, nm, i)
  }

  ghost predicate IsEntryFor(env: Env, t: GoType, st: GoType, src: Value, p: Entry, nm: GoString, i: nat)
    requires Sane(env) && HasType(src, st) && NamesField(st, nm, i)
  {
    p == Entry(VString(nm), Convert.Convert(env, t, Zero(t), TAny, InInterface(st, src, i)).dst)
  }

  lemma InterfacedIs(st: GoType, src: Value, i: nat)
    requires st.TStruct? && HasType(src, st) && i < |st.fields|
    ensures Interfaced(st, src, i) == InInterface(st, src, i)
  {
    StructShape(st, src);
    hide HasType;
  }

  lemma NameIsEntry(env: Env, t: GoType, st: GoType, src: Value, nm: GoString)
    requires Sane(env) && HasType(src, st) && st.TStruct? && FirstOwner(st.fields, nm).Some?
    ensures var i := FirstOwner(st.fields, nm).value;
            NamesField(st, nm, i)
            && IsEntryFor(env, t, st, src, Entry(VString(nm), NameOutcome(env, t, st, src, nm).dst), nm, i)
  {
    FirstOwnerMeans(st.fields, nm);
    var i := FirstOwner(st.fields, nm).value;
    InterfacedIs(st, src, i);
    hide Convert.Convert, ConvertAny, HasType, Sane, FirstOwner, FirstToAnswer, InInterface, Interfaced, Zero;
    AnyGoesToAny(env, t, Zero(t), InInterface(st, src, i));
  }

  /** A struct as a map: every name that a field answers to is a key, and there are no others. */
  lemma StructContents(env: Env, t: GoType, dst: Value, st: GoType, src: Value)
    requires Sane(env) && HasType(dst, t) && HasType(src, st)
    requires t.TMap? && t.key == TString && st.TStruct? && st.fields != []
    ensures var r := Convert.Convert(env, t, dst, st, src);
            r.err.None? ==>
              && r.dst.VMap?
              && (forall p :: p in r.dst.entries ==> EntryFor(env, t.elem, st, src, p))
              && (forall nm, i: nat :: NamesField(st, nm, i) ==>
                    exists p :: p in r.dst.entries && IsEntryFor(env, t.elem, st, src, p, nm, i))
  {
    StructToMap(env, t, dst, st, src);
    var r, names := Convert.Convert(env, t, dst, st, src), NameOrder(env, st.fields);
    hide Convert.Convert, HasType, TakesAny, FirstToAnswer;
    if r.err.None? {
      NamesCover(env, st.fields, names);
      hide Sane, NamesField, IsEntryFor, NameOutcome, NameOrder;
      forall p | p in r.dst.entries ensures EntryFor(env, t.elem, st, src, p) {
        var k :| 0 <= k < |names| && p == r.dst.entries[k];
        NameIsEntry(env, t.elem, st, src, names[k]);
      }
      forall nm, i: nat | NamesField(st, nm, i)
        ensures exists p :: p in r.dst.entries && IsEntryFor(env, t.elem, st, src, p, nm, i)
      {
        EntryOfName(env, t.elem, st, src, names, r.dst.entries, nm, i);
      }
    }
  }

  lemma EntryOfName(
    env: Env, t: GoType, st: GoType, src: Value, names: seq<GoString>, entries: seq<Entry>, nm: GoString, i: nat)
    requires Sane(env) && HasType(src, st) && st.TStruct? && AreNames(names, st.fields) && NamesField(st, nm, i)
    requires NamesTo(env, t, st, src, names, entries, |names|)
    requires forall nm: GoString :: FirstOwner(st.fields, nm).Some? ==> nm in names
    ensures exists p :: p in entries && IsEntryFor(env, t, st, src, p, nm, i)
  {
    NamedIsOwned(st, nm, i);
    hide FirstOwner, HasType, Sane, IsEntryFor, NameOutcome;
    var k :| 0 <= k < |names| && names[k] == nm;
    NameIsEntry(env, t, st, src, nm);
    assert entries[k] in entries;
  }

  lemma NamedIsOwned(st: GoType, nm: GoString, i: nat)
    requires NamesField(st, nm, i)
    ensures FirstOwner(st.fields, nm) == Some(i)
  {
    FirstIsOne(st.fields, nm, i);
  }

  lemma NamesCover(env: Env, fields: seq<Field>, names: seq<GoString>)
    requires Sane(env) && names == NameOrder(env, fields)
    ensures forall nm: GoString :: FirstOwner(fields, nm).Some? ==> nm in names
    ensures forall k :: 0 <= k < |names| ==> FirstOwner(fields, names[k]).Some?
  {
    hide FirstOwner;
    forall nm: GoString | FirstOwner(fields, nm).Some? ensures nm in names {
      NamesHaveOwners(fields, nm);
    }
  }

  // ------------------------------------------------------- what fills a field

  /** Of a struct: the first field that answers to the most important name it can. */
  lemma FilledFromStruct(env: Env, f: Field, st: GoType, src: Value)
    requires HasType(src, st) && st.TStruct?
    ensures src.VStruct? && |src.fields| == |st.fields|
    ensures forall i: nat :: (i < |st.fields| && MostImportant(st.fields, f, i)) ==>
              Filling(env, f, st, src) == Some((st.fields[i].typ, src.fields[i]))
    ensures (forall rank :: FillsNothing(st.fields, f, rank)) ==> Filling(env, f, st, src) == None
    ensures Filling(env, f, st, src).Some? ==> exists i: nat :: i < |st.fields| && MostImportant(st.fields, f, i)
  {
    StructShape(st, src);
    var r := SourceOf(st.fields, f);
    forall i: nat ensures r == Some(i) <==> MostImportant(st.fields, f, i) {
      FilledByRank(st.fields, f, i);
    }
    FilledByRank(st.fields, f, 0);
    hide HasType, SourceOf, MostImportant, FillsNothing;
  }

  ghost predicate MostImportant(fields: seq<Field>, f: Field, i: nat) {
    exists rank :: Fills(fields, f, rank, i) && forall lower :: 0 <= lower < rank ==> FillsNothing(fields, f, lower)
  }

  /** The key of an entry is one of a field's names but for case. */
  ghost predicate KeyFits(env: Env, f: Field, k: Value) {
    k.VString? && exists nm :: AnswersTo(f, nm) && env.equalFold(k.s, nm)
  }

  /** Of a map: the first entry, in the order of the map, whose key is one of the names but for case. */
  lemma FilledFromMap(env: Env, f: Field, st: GoType, src: Value)
    requires HasType(src, st) && st.TMap? && st.key == TString
    ensures var r, entries := Filling(env, f, st, src), Entries(src);
            && (forall i :: 0 <= i < |entries| && KeyFits(env, f, entries[i].key)
                            && (forall j :: 0 <= j < i ==> !KeyFits(env, f, entries[j].key)) ==>
                  r == Some((st.elem, entries[i].val)))
            && ((forall i :: 0 <= i < |entries| ==> !KeyFits(env, f, entries[i].key)) ==> r == None)
  {
    var entries := Entries(src);
    hide HasType, FieldNames, AnswersTo;
    forall i | 0 <= i < |entries| ensures KeyFits(env, f, entries[i].key) <==> Folds(env, entries[i], FieldNames(f)) {
      forall nm: GoString ensures nm in FieldNames(f) <==> AnswersTo(f, nm) {
        OwnsMeans(f, nm);
      }
    }
    hide KeyFits, Folds, FoldedEntry;
  }
}
