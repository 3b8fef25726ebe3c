/** Sorting a place found by the map search into a lead type
    (`classifyPlace` in `src/lib/places-service.ts`). The place's name and
    its Places API types are compared in lower case: pool words first, then
    homeowners-association words, then the area types; anything else is
    `other`. */
module Places {
  import opened Common
  import opened Leads

  /** `types.map(t => t.toLowerCase())`. */
  function LowerAll(types: seq<string>): (r: seq<string>)
    ensures |r| == |types|
    ensures forall i :: 0 <= i < |types| ==> r[i] == ToLower(types[i])
  {
    seq(|types|, i requires 0 <= i < |types| => ToLower(types[i]))
  }

  /** The pool words, looked for anywhere in the lower-cased name. */
  predicate PoolName(name: string) {
    Contains(name, "pool") || Contains(name, "aquatic") || Contains(name, "natatorium")
  }

  /** The homeowners-association words. */
  predicate HoaName(name: string) {
    Contains(name, "hoa") || Contains(name, "homeowners") || Contains(name, "association")
    || Contains(name, "property management")
  }

  /** The pool type: a whole entry of the lower-cased types, not a part of one. */
  predicate PoolType(types: seq<string>) {
    "swimming_pool" in types
  }

  /** The area types, again as whole entries. */
  predicate AreaType(types: seq<string>) {
    "neighborhood" in types || "locality" in types || "administrative_area_level_3" in types
  }

  /** `classifyPlace`: the first test that holds decides, in the order pool,
      homeowners association, neighborhood. */
  function ClassifyPlace(name: string, types: seq<string>): (r: LeadType)
    ensures r == Pool <==> PoolName(ToLower(name)) || PoolType(LowerAll(types))
    ensures r == Hoa <==> !PoolName(ToLower(name)) && !PoolType(LowerAll(types)) && HoaName(ToLower(name))
    ensures r == Neighborhood <==>
              !PoolName(ToLower(name)) && !PoolType(LowerAll(types)) && !HoaName(ToLower(name))
              && AreaType(LowerAll(types))
    ensures r == Other <==>
              !PoolName(ToLower(name)) && !PoolType(LowerAll(types)) && !HoaName(ToLower(name))
              && !AreaType(LowerAll(types))
  {
    var nameLower := ToLower(name);
    var typesLower := LowerAll(types);
    if PoolName(nameLower) || PoolType(typesLower) then Pool
    else if HoaName(nameLower) then Hoa
    else if AreaType(typesLower) then Neighborhood
    else Other
  }

  /** Lower-casing every type twice is lower-casing it once. */
  lemma LowerAllIdempotent(types: seq<string>)
    ensures LowerAll(LowerAll(types)) == LowerAll(types)
  {
    forall i | 0 <= i < |types|
      ensures LowerAll(LowerAll(types))[i] == LowerAll(types)[i]
    {
      ToLowerIdempotent(types[i]);
    }
  }

  /** The case of the name and of the types makes no difference: classifying
      their lower-case forms gives the same type. */
  lemma ClassifyIgnoresCase(name: string, types: seq<string>)
    ensures ClassifyPlace(ToLower(name), LowerAll(types)) == ClassifyPlace(name, types)
  {
    ToLowerIdempotent(name);
    LowerAllIdempotent(types);
  }

  /** A `swimming_pool` type, in any case, makes the place a pool whatever
      its name says. */
  lemma PoolTypeWins(name: string, types: seq<string>, i: int)
    requires 0 <= i < |types| && ToLower(types[i]) == "swimming_pool"
    ensures ClassifyPlace(name, types) == Pool
  {
    assert LowerAll(types)[i] == "swimming_pool";
  }

  /** The name alone never makes a neighborhood: that result needs one of
      the area types, and a place with no types is a pool, an association or
      other. */
  lemma NeighborhoodOnlyFromTypes(name: string, types: seq<string>)
    ensures ClassifyPlace(name, types) == Neighborhood ==> AreaType(LowerAll(types))
    ensures types == [] ==> ClassifyPlace(name, types) != Neighborhood
  {
    if types == [] {
      assert LowerAll(types) == [];
    }
  }

  /** Two names that hold neither pool nor association words classify the
      same way under the same types: from there on only the types decide. */
  lemma NameDecidesOnlyByWords(name1: string, name2: string, types: seq<string>)
    requires !PoolName(ToLower(name1)) && !HoaName(ToLower(name1))
    requires !PoolName(ToLower(name2)) && !HoaName(ToLower(name2))
    ensures ClassifyPlace(name1, types) == ClassifyPlace(name2, types)
  {
  }
}
