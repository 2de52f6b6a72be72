/** The names under which struct fields are matched, and the first-wins index over them
    (indexStructFields, fieldNames and the lookups of structConvert in copy/struct.go). */
module Fields {
  import opened Text
  import opened GoTypes
  import Numbers

  /** A tag up to its first comma. */
  function HeadOf(tag: GoString): (h: GoString)
    ensures h <= tag && ',' !in h
    ensures |h| < |tag| ==> tag[|h|] == ','
  {
    if tag == "" || tag[0] == ',' then "" else [tag[0]] + HeadOf(tag[1..])
  }

  lemma HeadIsOnly(tag: GoString, h: string)
    requires h <= tag && ',' !in h && (|h| < |tag| ==> tag[|h|] == ',')
    ensures h == HeadOf(tag)
  {
    NextIsInLonger(h, HeadOf(tag), tag);
    NextIsInLonger(HeadOf(tag), h, tag);
  }

  lemma NextIsInLonger(a: string, b: string, tag: string)
    requires a <= tag && b <= tag
    ensures |a| < |b| ==> tag[|a|] in b
  {
    assert |a| < |b| ==> b[|a|] == tag[|a|];
  }

  method TagHead(tag: GoString) returns (h: GoString)
    ensures h == HeadOf(tag)
  {
    hide HeadOf;
    for i := 0 to |tag|
      invariant ',' !in tag[..i]
    {
      if tag[i] == ',' {
        HeadIsOnly(tag, tag[..i]);
        return tag[..i];
      }
    }
    HeadIsOnly(tag, tag);
    return tag;
  }

  function LowerFirst(s: GoString): GoString {
    if s != "" && 'A' <= s[0] <= 'Z' then [(s[0] as int + 32) as char] + s[1..] else s
  }

  /** The candidate names of a field, in order of priority. */
  function FieldNames(f: Field): (names: seq<GoString>)
    ensures f.name in names
  {
    (if f.db != "" && f.db != "-" then [HeadOf(f.db)] else [])
    + (if f.json != "" && f.json != "-" then [HeadOf(f.json)] else [])
    + [f.name, LowerFirst(f.name)]
  }

  predicate Owns(f: Field, nm: GoString) { nm in FieldNames(f) }

  /** The first field that has a name among its candidates. */
  function FirstOwner(fields: seq<Field>, nm: GoString): (r: Option<nat>)
    ensures r.Some? ==> r.value < |fields| && Owns(fields[r.value], nm)
    ensures forall j :: 0 <= j < |fields| && Owns(fields[j], nm) ==> r.Some? && r.value <= j
  {
    hide Owns;
    if fields == [] then None
    else
      var n := |fields| - 1;
      var r := FirstOwner(fields[..n], nm);
      assert forall j :: 0 <= j < n ==> fields[j] == fields[..n][j];
      if r.Some? then r else if Owns(fields[n], nm) then Some(n) else None
  }

  ghost predicate Indexes(m: map<GoString, nat>, fields: seq<Field>) {
    && (forall nm: GoString :: nm in m ==> FirstOwner(fields, nm) == Some(m[nm]))
    && (forall nm: GoString :: FirstOwner(fields, nm).Some? ==> nm in m)
  }

  lemma OwnerOfOneMore(fields: seq<Field>, i: nat, nm: GoString)
    requires i < |fields|
    ensures FirstOwner(fields[..i + 1], nm)
            == if FirstOwner(fields[..i], nm).Some? then FirstOwner(fields[..i], nm)
               else if Owns(fields[i], nm) then Some(i) else None
  {
    assert fields[..i + 1][..i] == fields[..i];
  }

  /** The names that are not there yet get number i. */
  method AddNames(before: map<GoString, nat>, names: seq<GoString>, i: nat) returns (m: map<GoString, nat>)
    ensures forall nm: GoString :: nm in m <==> nm in before || nm in names
    ensures forall nm: GoString :: nm in m ==> m[nm] == if nm in before then before[nm] else i
  {
    m := before;
    for k := 0 to |names|
      invariant forall nm: GoString :: nm in m <==> nm in before || nm in names[..k]
      invariant forall nm: GoString :: nm in m ==> m[nm] == if nm in before then before[nm] else i
    {
      assert names[..k + 1] == names[..k] + [names[k]];
      if names[k] !in m {
        m := m[names[k] := i];
      }
    }
    assert names[..|names|] == names;
  }

  /** Each name goes to the first field that has it. */
  method IndexStructFields(fields: seq<Field>) returns (m: map<GoString, nat>)
    ensures Indexes(m, fields)
  {
    hide FieldNames, FirstOwner;
    m := map[];
    assert Indexes(m, fields[..0]) by {
      EmptyIndex(m);
      assert fields[..0] == [];
    }
    for i := 0 to |fields|
      invariant Indexes(m, fields[..i])
    {
      m := AddNames(m, FieldNames(fields[i]), i);
      forall nm: GoString {
        OwnerOfOneMore(fields, i, nm);
      }
    }
    assert fields[..|fields|] == fields;
  }

  lemma EmptyIndex(m: map<GoString, nat>)
    requires m == map[]
    ensures Indexes(m, [])
  {}

  /** The first of some candidate names that a field of the list has, and the first field that
      has it. */
  function FirstHit(fields: seq<Field>, names: seq<GoString>): (r: Option<nat>)
    ensures r.Some? ==> r.value < |fields|
    ensures r.Some? ==> exists nm: GoString :: nm in names && FirstOwner(fields, nm) == r
    ensures r.None? ==> forall nm: GoString :: nm in names ==> FirstOwner(fields, nm).None?
  {
    if names == [] then None
    else
      var r := FirstOwner(fields, names[0]);
      if r.Some? then r else FirstHit(fields, names[1..])
  }

  /** The source field that fills a destination field. */
  function SourceOf(fields: seq<Field>, f: Field): (r: Option<nat>)
    ensures r.Some? ==> r.value < |fields|
  {
    FirstHit(fields, FieldNames(f))
  }

  method FindSource(m: map<GoString, nat>, ghost fields: seq<Field>, f: Field) returns (r: Option<nat>)
    requires Indexes(m, fields)
    ensures r == SourceOf(fields, f)
  {
    hide FieldNames, FirstOwner;
    var names := FieldNames(f);
    for k := 0 to |names|
      invariant SourceOf(fields, f) == FirstHit(fields, names[k..])
    {
      assert names[k..][1..] == names[k + 1..];
      if names[k] in m {
        return Some(m[names[k]]);
      }
    }
    return None;
  }

  // ------------------------------------------------------------ who is matched

  /** Two fields that are matched under the same names. */
  predicate SameNames(f: Field, g: Field) { f.name == g.name && f.db == g.db && f.json == g.json }

  predicate SameNamesAll(fs: seq<Field>, gs: seq<Field>) {
    |fs| == |gs| && forall i :: 0 <= i < |fs| ==> SameNames(fs[i], gs[i])
  }

  lemma FirstHitStart(fields: seq<Field>, names: seq<GoString>, i: nat)
    requires names != [] && i < |fields| && Owns(fields[i], names[0])
    ensures FirstHit(fields, names) == FirstOwner(fields, names[0])
  {}

  /** No earlier field has the most important name of a field among its candidates. */
  predicate NoOwnerBefore(fields: seq<Field>, i: nat)
    requires i < |fields|
  {
    forall j :: 0 <= j < i ==> !Owns(fields[j], FieldNames(fields[i])[0])
  }

  lemma SentHome(fs: seq<Field>, gs: seq<Field>, i: nat)
    requires SameNamesAll(fs, gs) && i < |gs|
    ensures SourceOf(fs, gs[i]) == Some(i) <==> NoOwnerBefore(gs, i)
  {
    hide FirstOwner, FirstHit;
    var nm := FieldNames(gs[i])[0];
    assert SameNames(fs[i], gs[i]);
    FirstHitStart(fs, FieldNames(gs[i]), i);
    var r := FirstOwner(fs, nm);
    assert Owns(fs[i], nm);
    forall j | 0 <= j < i ensures Owns(fs[j], nm) == Owns(gs[j], nm) {
      assert SameNames(fs[j], gs[j]);
    }
    assert r.value < i ==> Owns(gs[r.value], nm);
  }

  /** Between two structs with the same field names and tags, the index sends every field to its
      counterpart exactly when no field has the most important name of a later one. */
  lemma IndexSendsHome(fs: seq<Field>, gs: seq<Field>)
    requires SameNamesAll(fs, gs)
    ensures (forall i :: 0 <= i < |gs| ==> SourceOf(fs, gs[i]) == Some(i))
            <==> (forall i :: 0 <= i < |gs| ==> NoOwnerBefore(gs, i))
  {
    hide SourceOf, NoOwnerBefore, SameNamesAll;
    forall i | 0 <= i < |gs| ensures SourceOf(fs, gs[i]) == Some(i) <==> NoOwnerBefore(gs, i) {
      SentHome(fs, gs, i);
    }
  }

  /** Two fields with a candidate name in common. */
  ghost predicate Shares(f: Field, g: Field) { exists nm: GoString :: Owns(f, nm) && Owns(g, nm) }

  /** p pairs the fields of two structs: a field shares candidate names with its partner and with
      no other field of the other struct. */
  ghost predicate PairsUp(fs: seq<Field>, gs: seq<Field>, p: seq<nat>) {
    && |p| == |fs| == |gs|
    && (forall i :: 0 <= i < |p| ==> p[i] < |gs|)
    && (forall i, j :: 0 <= i < |fs| && 0 <= j < |gs| ==> (Shares(fs[i], gs[j]) <==> p[i] == j))
  }

  lemma SourceShares(fields: seq<Field>, f: Field, j: nat)
    requires j < |fields|
    ensures var r := SourceOf(fields, f);
            && (r.Some? ==> Shares(f, fields[r.value]) && Shares(fields[r.value], f))
            && (Shares(fields[j], f) || Shares(f, fields[j]) ==> r.Some?)
  {
    hide FirstOwner, FirstHit, FieldNames;
    var r := SourceOf(fields, f);
    if r.Some? {
      var nm: GoString :| nm in FieldNames(f) && FirstOwner(fields, nm) == r;
      assert Owns(f, nm) && Owns(fields[r.value], nm);
    }
    if nm: GoString :| Owns(f, nm) && Owns(fields[j], nm) {
      assert FirstOwner(fields, nm).Some?;
    }
  }

  /** Where the candidate names of distinct fields do not meet, every field finds its partner. */
  lemma PartnersAreFound(fs: seq<Field>, gs: seq<Field>, p: seq<nat>, i: nat)
    requires PairsUp(fs, gs, p) && i < |fs|
    requires forall k, l :: 0 <= k < l < |p| ==> p[k] != p[l]
    ensures SourceOf(gs, fs[i]) == Some(p[i])
    ensures SourceOf(fs, gs[p[i]]) == Some(i)
  {
    hide SourceOf, Shares;
    SourceShares(gs, fs[i], p[i]);
    SourceShares(fs, gs[p[i]], i);
  }

  /** Two fields that carry only options in their json tags share the empty name, and the second
      is filled from the first. */
  lemma EmptyTagHeadsCollide()
    ensures var fields := [Field("A", "", ",omitempty", TNum(Numbers.I64)),
                           Field("B", "", ",omitempty", TNum(Numbers.I64))];
            SourceOf(fields, fields[1]) == Some(0)
  {
    var a := Field("A", "", ",omitempty", TNum(Numbers.I64));
    var b := Field("B", "", ",omitempty", TNum(Numbers.I64));
    assert FieldNames(a)[0] == "" && FieldNames(b)[0] == "";
    assert Owns(a, "");
    FirstHitStart([a, b], FieldNames(b), 0);
  }
}
