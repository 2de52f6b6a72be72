/** Which field fills which, in terms of names and tags alone: a field answers to the head of its db
    tag, to the head of its json tag, to its name and to its name with a small first letter, in that
    order. */
module FieldMatching {
  import opened Text
  import opened GoTypes
  import opened Fields

  /** The part of a tag before its first comma; an absent tag and "-" give no name. */
  ghost predicate TagGives(tag: GoString, nm: GoString) {
    tag != "" && tag != "-" && nm <= tag && ',' !in nm && (|nm| < |tag| ==> tag[|nm|] == ',')
  }

  /** The same text but for a capital first letter, which is small. */
  ghost predicate LowersTo(name: GoString, nm: GoString) {
    && |nm| == |name|
    && (name != "" ==>
          && nm[1..] == name[1..]
          && nm[0] as int == name[0] as int + if 'A' <= name[0] <= 'Z' then 'a' as int - 'A' as int else 0)
  }

  /** The name of a field at a rank: 0 the db tag, 1 the json tag, 2 its own name, 3 with a small
      first letter. */
  ghost predicate NameAt(f: Field, rank: int, nm: GoString) {
    if rank == 0 then TagGives(f.db, nm)
    else if rank == 1 then TagGives(f.json, nm)
    else if rank == 2 then nm == f.name
    else rank == 3 && LowersTo(f.name, nm)
  }

  ghost predicate AnswersTo(f: Field, nm: GoString) { exists rank :: NameAt(f, rank, nm) }

  /** Field i is the first of some fields to answer to a name. */
  ghost predicate FirstToAnswer(fields: seq<Field>, nm: GoString, i: nat) {
    i < |fields| && AnswersTo(fields[i], nm) && forall j :: 0 <= j < i ==> !AnswersTo(fields[j], nm)
  }

  ghost predicate NobodyAnswers(fields: seq<Field>, nm: GoString) {
    forall j :: 0 <= j < |fields| ==> !AnswersTo(fields[j], nm)
  }

  lemma TagGivesHead(tag: GoString, nm: GoString)
    ensures TagGives(tag, nm) <==> tag != "" && tag != "-" && nm == HeadOf(tag)
  {
    hide HeadOf;
    if TagGives(tag, nm) {
      HeadIsOnly(tag, nm);
    }
  }

  lemma LowersToFirst(name: GoString, nm: GoString)
    ensures LowersTo(name, nm) <==> nm == LowerFirst(name)
  {
    if LowersTo(name, nm) && name != "" {
      assert nm == [nm[0]] + nm[1..];
    }
  }

  lemma OwnsMeans(f: Field, nm: GoString)
    ensures Owns(f, nm) <==> AnswersTo(f, nm)
  {
    hide HeadOf, LowerFirst, LowersTo, TagGives;
    TagGivesHead(f.db, nm);
    TagGivesHead(f.json, nm);
    LowersToFirst(f.name, nm);
    assert forall rank :: NameAt(f, rank, nm) ==> 0 <= rank < 4;
    assert NameAt(f, 0, nm) || NameAt(f, 1, nm) || NameAt(f, 2, nm) || NameAt(f, 3, nm) <==> AnswersTo(f, nm);
  }

  lemma FirstOwnerMeans(fields: seq<Field>, nm: GoString)
    ensures var r := FirstOwner(fields, nm);
            && (r.Some? ==> FirstToAnswer(fields, nm, r.value))
            && (r.None? <==> NobodyAnswers(fields, nm))
  {
    hide Owns, AnswersTo, FirstOwner;
    forall j | 0 <= j < |fields| ensures Owns(fields[j], nm) <==> AnswersTo(fields[j], nm) {
      OwnsMeans(fields[j], nm);
    }
  }

  /** A field with this rank has a name that some field answers to, first of all field i. */
  ghost predicate Fills(fields: seq<Field>, f: Field, rank: int, i: nat) {
    exists nm :: NameAt(f, rank, nm) && FirstToAnswer(fields, nm, i)
  }

  ghost predicate FillsNothing(fields: seq<Field>, f: Field, rank: int) {
    forall nm :: NameAt(f, rank, nm) ==> NobodyAnswers(fields, nm)
  }

  /** The name of each rank, if there is one. */
  function RankNames(f: Field, rank: nat): seq<GoString>
    requires rank < 4
  {
    if rank == 0 then if f.db != "" && f.db != "-" then [HeadOf(f.db)] else []
    else if rank == 1 then if f.json != "" && f.json != "-" then [HeadOf(f.json)] else []
    else if rank == 2 then [f.name]
    else [LowerFirst(f.name)]
  }

  lemma NamesByRank(f: Field)
    ensures FieldNames(f) == RankNames(f, 0) + (RankNames(f, 1) + (RankNames(f, 2) + RankNames(f, 3)))
  {
    hide HeadOf, LowerFirst;
  }

  lemma NameOfRank(f: Field, rank: nat, nm: GoString)
    requires rank < 4
    ensures |RankNames(f, rank)| <= 1
    ensures NameAt(f, rank, nm) <==> RankNames(f, rank) == [nm]
  {
    hide HeadOf, LowerFirst, LowersTo, TagGives;
    TagGivesHead(f.db, nm);
    TagGivesHead(f.json, nm);
    LowersToFirst(f.name, nm);
  }

  function OwnerOf(fields: seq<Field>, names: seq<GoString>): Option<nat> {
    if names == [] then None else FirstOwner(fields, names[0])
  }

  lemma FirstHitOfTwo(fields: seq<Field>, a: seq<GoString>, b: seq<GoString>)
    requires |a| <= 1
    ensures FirstHit(fields, a + b)
            == if OwnerOf(fields, a).Some? then OwnerOf(fields, a) else FirstHit(fields, b)
  {
    hide FirstOwner;
    if a == [] {
      assert a + b == b;
    } else {
      assert (a + b)[1..] == b;
    }
  }

  lemma FirstHitOfFour(fields: seq<Field>, a: seq<GoString>, b: seq<GoString>, c: seq<GoString>, d: seq<GoString>)
    requires |a| <= 1 && |b| <= 1 && |c| <= 1 && |d| <= 1
    ensures FirstHit(fields, a + (b + (c + d)))
            == if OwnerOf(fields, a).Some? then OwnerOf(fields, a)
               else if OwnerOf(fields, b).Some? then OwnerOf(fields, b)
               else if OwnerOf(fields, c).Some? then OwnerOf(fields, c)
               else OwnerOf(fields, d)
  {
    NoHit(fields);
    hide FirstHit, OwnerOf;
    FirstHitOfTwo(fields, a, b + (c + d));
    FirstHitOfTwo(fields, b, c + d);
    FirstHitOfTwo(fields, c, d);
    FirstHitOfTwo(fields, d, []);
    assert d + [] == d;
  }

  /** One rank: its name decides if some field answers to it. */
  lemma RankDecides(fields: seq<Field>, f: Field, rank: nat, i: nat)
    requires rank < 4
    ensures FillsNothing(fields, f, rank) <==> OwnerOf(fields, RankNames(f, rank)).None?
    ensures Fills(fields, f, rank, i) <==> OwnerOf(fields, RankNames(f, rank)) == Some(i)
    ensures |RankNames(f, rank)| <= 1
  {
    hide NameAt, FirstToAnswer, NobodyAnswers, FirstOwner, RankNames;
    forall nm: GoString ensures NameAt(f, rank, nm) <==> RankNames(f, rank) == [nm] {
      NameOfRank(f, rank, nm);
    }
    NameOfRank(f, rank, "");
    var names := RankNames(f, rank);
    if names != [] {
      FirstOwnerMeans(fields, names[0]);
      FirstIsOne(fields, names[0], i);
      assert NameAt(f, rank, names[0]);
    }
  }

  lemma FirstIsOne(fields: seq<Field>, nm: GoString, i: nat)
    ensures FirstToAnswer(fields, nm, i) ==> FirstOwner(fields, nm) == Some(i)
  {
    FirstOwnerMeans(fields, nm);
    hide AnswersTo, FirstOwner;
  }

  /** A field is filled from the first field that answers to the most important of its names that any
      field answers to. */
  lemma FilledByRank(fields: seq<Field>, f: Field, i: nat)
    ensures SourceOf(fields, f) == Some(i)
            <==> exists rank :: Fills(fields, f, rank, i)
                                && forall lower :: 0 <= lower < rank ==> FillsNothing(fields, f, lower)
    ensures SourceOf(fields, f) == None <==> forall rank :: FillsNothing(fields, f, rank)
  {
    NamesByRank(f);
    RankDecides(fields, f, 0, i);
    RankDecides(fields, f, 1, i);
    RankDecides(fields, f, 2, i);
    RankDecides(fields, f, 3, i);
    hide NameAt, RankNames, FieldNames, FirstHit, OwnerOf;
    FirstHitOfFour(fields, RankNames(f, 0), RankNames(f, 1), RankNames(f, 2), RankNames(f, 3));
    OnlyFourRanks(fields, f, i);
    hide Fills, FillsNothing;
    FourRanks(fields, f, i);
  }

  lemma NoHit(fields: seq<Field>)
    ensures FirstHit(fields, []) == None
  {}

  lemma OnlyFourRanks(fields: seq<Field>, f: Field, i: nat)
    ensures forall rank :: Fills(fields, f, rank, i) ==> 0 <= rank < 4
    ensures forall rank :: !(0 <= rank < 4) ==> FillsNothing(fields, f, rank)
  {}

  lemma FourRanks(fields: seq<Field>, f: Field, i: nat)
    requires forall rank :: Fills(fields, f, rank, i) ==> 0 <= rank < 4
    requires forall rank :: !(0 <= rank < 4) ==> FillsNothing(fields, f, rank)
    ensures (forall rank :: FillsNothing(fields, f, rank))
            <==> FillsNothing(fields, f, 0) && FillsNothing(fields, f, 1) && FillsNothing(fields, f, 2)
                 && FillsNothing(fields, f, 3)
    ensures (exists rank :: Fills(fields, f, rank, i)
                            && forall lower :: 0 <= lower < rank ==> FillsNothing(fields, f, lower))
            <==> || Fills(fields, f, 0, i)
                 || (Fills(fields, f, 1, i) && FillsNothing(fields, f, 0))
                 || (Fills(fields, f, 2, i) && FillsNothing(fields, f, 0) && FillsNothing(fields, f, 1))
                 || (Fills(fields, f, 3, i) && FillsNothing(fields, f, 0) && FillsNothing(fields, f, 1)
                     && FillsNothing(fields, f, 2))
  {
    hide Fills, FillsNothing;
  }
}
