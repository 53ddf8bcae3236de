/** Worked examples of the search step on concrete drinks. */
module Scenarios {

  import opened Options
  import opened Text
  import opened Recipes
  import opened Matcher

  /** The fifteen ingredient fields are pairwise distinct, and none of them is
      the drink's name field. */
  lemma FieldsApart()
    ensures forall i, k :: 1 <= i <= SlotCount && 1 <= k <= SlotCount && i != k ==>
              IngredientField(i) != IngredientField(k)
    ensures forall i :: 1 <= i <= SlotCount ==> IngredientField(i) != "strDrink"
  {
    forall i, k | 1 <= i <= SlotCount && 1 <= k <= SlotCount && IngredientField(i) == IngredientField(k)
      ensures i == k
    {
      IngredientFieldInjective(i, k);
    }
    forall i | 1 <= i <= SlotCount
      ensures IngredientField(i) != "strDrink"
    {
      assert |IngredientField(i)| > |"strDrink"|;
    }
  }

  /** A three-ingredient drink; the other twelve fields are missing. */
  function LemonDrop(): Drink {
    map[IngredientField(1) := Some("Lemon Vodka"),
        IngredientField(2) := Some("Triple Sec"),
        IngredientField(3) := Some("Orange Juice"),
        "strDrink" := Some("Lemon Drop")]
  }

  /** A made-up drink whose only ingredient carries a trailing space. */
  function GinShot(): Drink {
    map[IngredientField(1) := Some("Gin "), "strDrink" := Some("Gin Shot")]
  }

  lemma LemonDropSlots()
    ensures Slots(LemonDrop())[0] == Some("Lemon Vodka")
    ensures Slots(LemonDrop())[1] == Some("Triple Sec")
    ensures Slots(LemonDrop())[2] == Some("Orange Juice")
    ensures forall j :: 3 <= j < SlotCount ==> Slots(LemonDrop())[j] == None
  {
    FieldsApart();
  }

  lemma GinShotSlots()
    ensures Slots(GinShot())[0] == Some("Gin ")
    ensures forall j :: 1 <= j < SlotCount ==> Slots(GinShot())[j] == None
  {
    FieldsApart();
  }

  /** Every present ingredient of the drink is selected verbatim, and none
      carries surrounding whitespace. */
  lemma LemonDropSelectedVerbatim(selected: seq<string>)
    requires selected == ["Lemon Vodka", "Triple Sec", "Orange Juice"]
    ensures forall j :: 0 <= j < SlotCount && Contributes(Slots(LemonDrop())[j]) ==>
              Slots(LemonDrop())[j].value in selected
              && Strip(Slots(LemonDrop())[j].value) == Slots(LemonDrop())[j].value
  {
    var d := LemonDrop();
    LemonDropSlots();
    forall j | 0 <= j < SlotCount && Slots(d)[j].Some?
      ensures j < 3 && Slots(d)[j].value == selected[j]
    {
    }
    forall j | 0 <= j < 3
      ensures Strip(selected[j]) == selected[j]
    {
      StripKeepsTrimmed(selected[j]);
    }
  }

  /** Selecting all three ingredients finds the drink. */
  lemma LemonDropFound()
    ensures Search(["Lemon Vodka", "Triple Sec", "Orange Juice"], [LemonDrop()]).Found?
  {
    var selected := ["Lemon Vodka", "Triple Sec", "Orange Juice"];
    LemonDropSelectedVerbatim(selected);
    TrimmedSelectionsMatch(selected, LemonDrop());
  }

  /** Selecting one of the three ingredients finds nothing: "triple_sec" is
      not on the list. */
  lemma LemonDropMissingIngredients()
    ensures Search(["Lemon Vodka"], [LemonDrop()]) == NoCocktail
  {
    var user := NormalizeSelections(["Lemon Vodka"]);
    LemonDropSlots();
    assert |RecipeCanon("Triple Sec")| == 10 by {
      StripKeepsTrimmed("Triple Sec");
    }
    assert RecipeCanon("Triple Sec") !in user;
    MakeableIffSlotsCovered(user, LemonDrop());
  }

  /** The two sides' forms of the catalog's "Gin ". */
  lemma GinForms()
    ensures RecipeCanon("Gin ") == "gin"
    ensures UserCanon("Gin ") == "gin_"
    ensures UserCanon("Gin") == "gin"
  {
    assert SkipSpaces("Gin ", 0) == 0;
    assert SkipSpacesBack("Gin ", 0, 4) == 3;
    assert Strip("Gin ") == "Gin";
    assert Lower("Gin") == "gin";
    assert Lower("Gin ") == "gin ";
  }

  /** Selecting "Gin " exactly as the drink spells it finds nothing, because
      only the recipe side strips the trailing space. */
  lemma GinShotSelectedVerbatim()
    ensures Search(["Gin "], [GinShot()]) == NoCocktail
  {
    GinShotSlots();
    GinForms();
    var user := NormalizeSelections(["Gin "]);
    assert user == ["gin_"];
    assert Contributes(Slots(GinShot())[0]);
    MakeableIffSlotsCovered(user, GinShot());
  }

  /** Selecting "Gin" finds the drink that lists "Gin ". */
  lemma GinShotSelectedTrimmed()
    ensures Search(["Gin"], [GinShot()]).Found?
  {
    GinShotSlots();
    GinForms();
    var user := NormalizeSelections(["Gin"]);
    assert user == ["gin"];
    MakeableIffSlotsCovered(user, GinShot());
  }
}
