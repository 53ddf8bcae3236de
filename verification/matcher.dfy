/** The full-makeability filter `find_matching_cocktails` (pb.py:38-44) and
    the search step that feeds it the user's normalised selections
    (pb.py:56-68).
 */
module Matcher {

  import opened Options
  import opened Text
  import opened Recipes
  import opened Subsequences
  import opened Filters

  /** `all(ing in user_ingredients for ing in drink_ings)` (pb.py:42): every
      extracted ingredient of `d` is in the user's list. */
  predicate Makeable(user: seq<string>, d: Drink) {
    var ings := Extract(Slots(d));
    forall k :: 0 <= k < |ings| ==> ings[k] in user
  }

  /** The test `find_matching_cocktails` applies to each drink. */
  function MakeableWith(user: seq<string>): Drink -> bool {
    d => Makeable(user, d)
  }

  /** The drinks `find_matching_cocktails` keeps: each makeable drink, in
      input order. */
  function MatchingDrinks(user: seq<string>, drinks: seq<Drink>): (r: seq<Drink>)
    ensures |r| <= |drinks|
    ensures forall d :: d in r ==> d in drinks && Makeable(user, d)
  {
    FilterMembership(MakeableWith(user), drinks);
    Filter(MakeableWith(user), drinks)
  }

  /** Each makeable drink is kept as often as it occurs; no other drink is kept. */
  lemma MatchingCounts(user: seq<string>, drinks: seq<Drink>)
    ensures forall d :: multiset(MatchingDrinks(user, drinks))[d] ==
                          if Makeable(user, d) then multiset(drinks)[d] else 0
  {
    FilterCounts(MakeableWith(user), drinks);
  }

  /** The result lists, one for one and in input order, the drinks at the
      makeable positions, so order and duplicates are kept. */
  lemma MatchingFollowsPositions(user: seq<string>, drinks: seq<Drink>)
    ensures var r, idx := MatchingDrinks(user, drinks), Positions(MakeableWith(user), drinks);
      && |r| == |idx|
      && (forall k :: 0 <= k < |idx| ==> r[k] == drinks[idx[k]] && Makeable(user, drinks[idx[k]]))
      && (forall k, l :: 0 <= k < l < |idx| ==> idx[k] < idx[l])
      && (forall j :: 0 <= j < |drinks| && Makeable(user, drinks[j]) ==> j in idx)
  {
    FilterFollowsPositions(MakeableWith(user), drinks);
  }

  /** The result is an order-preserving subsequence of the input. */
  lemma MatchingIsSubsequence(user: seq<string>, drinks: seq<Drink>)
    ensures IsSubsequence(MatchingDrinks(user, drinks), drinks)
  {
    FilterIsSubsequence(MakeableWith(user), drinks);
  }

  /** A drink is in the result exactly when it is in the input and makeable. */
  lemma MatchingMembership(user: seq<string>, drinks: seq<Drink>)
    ensures forall d :: d in MatchingDrinks(user, drinks) <==> d in drinks && Makeable(user, d)
  {
    FilterMembership(MakeableWith(user), drinks);
  }

  /** A drink is makeable exactly when each of its contributing slots names,
      once canonicalised, an ingredient on the user's list. */
  lemma MakeableIffSlotsCovered(user: seq<string>, d: Drink)
    ensures Makeable(user, d) <==>
              forall j :: 0 <= j < SlotCount && Contributes(Slots(d)[j]) ==> RecipeCanon(Slots(d)[j].value) in user
  {
    var slots := Slots(d);
    var ings := Extract(slots);
    forall j | 0 <= j < SlotCount && Contributes(slots[j])
      ensures RecipeCanon(slots[j].value) in ings
    {
      ExtractMembership(slots, RecipeCanon(slots[j].value));
    }
    forall k | 0 <= k < |ings|
      ensures exists j :: 0 <= j < SlotCount && Contributes(slots[j]) && ings[k] == RecipeCanon(slots[j].value)
    {
      ExtractMembership(slots, ings[k]);
    }
  }

  /** A drink none of whose fifteen slots is present and non-blank is makeable
      from any list, the empty one included, and so is kept every time it occurs. */
  lemma EmptyRecipeAlwaysMatches(user: seq<string>, drinks: seq<Drink>, d: Drink)
    requires forall j :: 0 <= j < SlotCount ==> !Contributes(Slots(d)[j])
    ensures Makeable(user, d)
    ensures multiset(MatchingDrinks(user, drinks))[d] == multiset(drinks)[d]
  {
    ExtractEmptyIffNoneContributes(Slots(d));
    MatchingCounts(user, drinks);
  }

  /** With nothing selected, exactly the drinks without a non-blank slot are makeable. */
  lemma EmptySelectionMakesOnlyEmptyRecipes(d: Drink)
    ensures Makeable([], d) <==> forall j :: 0 <= j < SlotCount ==> !Contributes(Slots(d)[j])
  {
    ExtractEmptyIffNoneContributes(Slots(d));
    var ings := Extract(Slots(d));
    if ings != [] {
      assert ings[0] !in [];
    }
  }

  /** Growing the user's list never makes a drink unmakeable. */
  lemma MakeableMonotonic(user: seq<string>, more: seq<string>, d: Drink)
    requires forall x :: x in user ==> x in more
    requires Makeable(user, d)
    ensures Makeable(more, d)
  {
  }

  /** Growing the user's list only adds matches: the old result is a
      subsequence of the new one. */
  lemma MatchingMonotonic(user: seq<string>, more: seq<string>, drinks: seq<Drink>)
    requires forall x :: x in user ==> x in more
    ensures IsSubsequence(MatchingDrinks(user, drinks), MatchingDrinks(more, drinks))
  {
    forall d | MakeableWith(user)(d)
      ensures MakeableWith(more)(d)
    {
      MakeableMonotonic(user, more, d);
    }
    FilterMonotonic(MakeableWith(user), MakeableWith(more), drinks);
  }

  /** Filtering a concatenation is concatenating the filtered parts, as when the
      catalog is assembled letter by letter. */
  lemma MatchingAppend(user: seq<string>, first: seq<Drink>, second: seq<Drink>)
    ensures MatchingDrinks(user, first + second) == MatchingDrinks(user, first) + MatchingDrinks(user, second)
  {
    FilterAppend(MakeableWith(user), first, second);
  }

  /** Filtering the result again changes nothing. */
  lemma MatchingIdempotent(user: seq<string>, drinks: seq<Drink>)
    ensures MatchingDrinks(user, MatchingDrinks(user, drinks)) == MatchingDrinks(user, drinks)
  {
    FilterIdempotent(MakeableWith(user), drinks);
  }

  /** `find_matching_cocktails(user_ingredients, all_cocktails)` (pb.py:38-44). */
  method FindMatchingCocktails(user: seq<string>, drinks: seq<Drink>) returns (matches: seq<Drink>)
    ensures matches == MatchingDrinks(user, drinks)
    ensures forall d :: d in matches <==> d in drinks && Makeable(user, d)
  {
    matches := [];
    for i := 0 to |drinks|
      invariant matches == Filter(MakeableWith(user), drinks[..i])
    {
      var drink := drinks[i];
      var drinkIngs := ExtractIngredients(drink);
      assert drinks[..i + 1][..i] == drinks[..i];
      if forall k :: 0 <= k < |drinkIngs| ==> drinkIngs[k] in user {
        matches := matches + [drink];
      }
    }
    assert drinks[..|drinks|] == drinks;
    MatchingMembership(user, drinks);
  }

  // ---------------------------------------------------------------- the search step

  /** `[ing.lower().replace(" ", "_") for ing in selected_ingredients]` (pb.py:62). */
  function NormalizeSelections(selected: seq<string>): (user: seq<string>)
    ensures |user| == |selected|
    ensures forall i :: 0 <= i < |selected| ==> user[i] == UserCanon(selected[i])
  {
    seq(|selected|, i requires 0 <= i < |selected| => UserCanon(selected[i]))
  }

  /** A selection with surrounding whitespace never covers a slot holding that
      very name, because only the recipe side strips it. */
  lemma SurroundedSelectionNeverMatches(s: string, d: Drink)
    requires !Blank(s) && Strip(s) != s
    requires Some(s) in Slots(d)
    ensures !Makeable(NormalizeSelections([s]), d)
  {
    var j :| 0 <= j < SlotCount && Slots(d)[j] == Some(s);
    var user := NormalizeSelections([s]);
    assert user == [UserCanon(s)];
    CanonsAgreeIffTrimmed(s);
    assert Contributes(Slots(d)[j]);
    assert RecipeCanon(s) !in user;
    MakeableIffSlotsCovered(user, d);
  }

  /** A drink is found when each of its present, non-blank fields holds,
      verbatim, one of the selected names, and that name has no surrounding
      whitespace. */
  lemma TrimmedSelectionsMatch(selected: seq<string>, d: Drink)
    requires forall j :: 0 <= j < SlotCount && Contributes(Slots(d)[j]) ==>
               Slots(d)[j].value in selected && Strip(Slots(d)[j].value) == Slots(d)[j].value
    ensures Makeable(NormalizeSelections(selected), d)
  {
    var user := NormalizeSelections(selected);
    forall j | 0 <= j < SlotCount && Contributes(Slots(d)[j])
      ensures RecipeCanon(Slots(d)[j].value) in user
    {
      var name := Slots(d)[j].value;
      var i :| 0 <= i < |selected| && selected[i] == name;
      CanonsAgreeIffTrimmed(name);
      assert user[i] == UserCanon(name);
    }
    MakeableIffSlotsCovered(user, d);
  }

  /** What pressing the button leads to, before any rendering. */
  datatype Outcome =
    | NothingSelected          // the "select at least one ingredient" warning
    | NoCocktail               // the "no cocktails can be made" error
    | Found(matches: seq<Drink>)  // `random.choice` picks one of these

  /** The branch structure of pb.py:56-68, with the full match list exposed
      in place of the random pick. */
  function Search(selected: seq<string>, catalog: seq<Drink>): (o: Outcome)
    ensures o.NothingSelected? <==> selected == []
    ensures o.NoCocktail? <==>
              selected != [] && forall d :: d in catalog ==> !Makeable(NormalizeSelections(selected), d)
    ensures o.Found? ==> o.matches != []
    ensures o.Found? ==> o.matches == MatchingDrinks(NormalizeSelections(selected), catalog)
    ensures o.Found? ==>
              forall d :: d in o.matches <==> d in catalog && Makeable(NormalizeSelections(selected), d)
  {
    if selected == [] then NothingSelected
    else
      var user := NormalizeSelections(selected);
      MatchingMembership(user, catalog);
      var possible := MatchingDrinks(user, catalog);
      if possible == [] then NoCocktail
      else
        assert possible[0] in possible;
        Found(possible)
  }
}
