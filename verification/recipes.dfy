/** Ingredient extraction from one drink record (pb.py:29-35).

    The catalog returns a drink as a flat record whose fields
    `strIngredient1` .. `strIngredient15` hold the ingredient names; a field
    may be missing, `null`, empty or blank.
 */
module Recipes {

  import opened Options
  import opened Text
  import opened Filters

  /** A drink record: field name to value, with a JSON `null` as `None`. */
  type Drink = map<string, Option<string>>

  /** The number of positional ingredient fields, `range(1, 16)`. */
  const SlotCount: nat := 15

  /** `dict.get`: a missing field reads as `None`, like a `null` one. */
  function Get(d: Drink, field: string): (v: Option<string>)
    ensures field !in d ==> v == None
    ensures field in d ==> v == d[field]
  {
    if field in d then d[field] else None
  }

  function DigitChar(n: nat): char
    requires n < 10
  {
    ('0' as int + n) as char
  }

  predicate AllDigits(s: string) {
    forall k :: 0 <= k < |s| ==> '0' <= s[k] <= '9'
  }

  /** The number a string of decimal digits spells. */
  function DecimalValue(s: string): nat
    requires AllDigits(s)
  {
    if |s| == 0 then 0
    else DecimalValue(s[..|s| - 1]) * 10 + (s[|s| - 1] as int - '0' as int)
  }

  /** The decimal spelling of `n`, as an f-string prints it. */
  function Decimal(n: nat): (r: string)
    ensures |r| > 0 && AllDigits(r)
  {
    if n < 10 then [DigitChar(n)] else Decimal(n / 10) + [DigitChar(n % 10)]
  }

  /** The spelling has no leading zero and reads back as `n`. */
  lemma {:induction false} DecimalRoundTrip(n: nat)
    ensures |Decimal(n)| > 1 ==> Decimal(n)[0] != '0'
    ensures DecimalValue(Decimal(n)) == n
  {
    if n >= 10 {
      DecimalRoundTrip(n / 10);
      var r := Decimal(n);
      assert r[..|r| - 1] == Decimal(n / 10);
    }
  }

  /** The field name `f"strIngredient{i}"`. */
  function IngredientField(i: nat): string {
    "strIngredient" + Decimal(i)
  }

  /** A field name is the fixed prefix followed by digits that read back as
      the slot number. */
  lemma IngredientFieldSpelling(i: nat)
    ensures |IngredientField(i)| > 13 && IngredientField(i)[..13] == "strIngredient"
    ensures AllDigits(IngredientField(i)[13..]) && DecimalValue(IngredientField(i)[13..]) == i
  {
    assert IngredientField(i)[13..] == Decimal(i);
    DecimalRoundTrip(i);
  }

  /** Distinct slot numbers name distinct fields. */
  lemma IngredientFieldInjective(i: nat, j: nat)
    requires IngredientField(i) == IngredientField(j)
    ensures i == j
  {
    IngredientFieldSpelling(i);
    IngredientFieldSpelling(j);
  }


  /** The 15 ingredient fields of `d`, in order: slot `j` holds `strIngredient{j+1}`. */
  function Slots(d: Drink): (slots: seq<Option<string>>)
    ensures |slots| == SlotCount
    ensures forall i :: 1 <= i <= SlotCount ==> slots[i - 1] == Get(d, IngredientField(i))
  {
    seq(SlotCount, j requires 0 <= j < SlotCount => Get(d, IngredientField(j + 1)))
  }

  /** The guard `ing and ing.strip()` (pb.py:33): present, non-empty, and
      non-empty once stripped, which is to say present and not blank. */
  predicate Contributes(slot: Option<string>)
    ensures Contributes(slot) <==> slot.Some? && !Blank(slot.value)
  {
    slot.Some? && slot.value != "" && Strip(slot.value) != ""
  }

  /** The names `extract_ingredients` collects from a sequence of slots: the
      recipe-side canonical form of each contributing slot, in slot order. */
  function Extract(slots: seq<Option<string>>): (names: seq<string>)
    ensures |names| <= |slots|
  {
    if |slots| == 0 then []
    else
      var previous := Extract(slots[..|slots| - 1]);
      var last := slots[|slots| - 1];
      if Contributes(last) then previous + [RecipeCanon(last.value)] else previous
  }

  /** A name `extract_ingredients` can return: non-empty, lower case, free of
      spaces, and without whitespace at either end. */
  predicate WellFormedName(n: string) {
    |n| > 0 && IsCanonical(n)
  }

  /** Every extracted name is well formed. */
  lemma {:induction false} ExtractWellFormed(slots: seq<Option<string>>)
    ensures forall k :: 0 <= k < |Extract(slots)| ==> WellFormedName(Extract(slots)[k])
  {
    if |slots| > 0 {
      var init, last := slots[..|slots| - 1], slots[|slots| - 1];
      ExtractWellFormed(init);
      if Contributes(last) {
        assert Extract(slots) == Extract(init) + [RecipeCanon(last.value)];
      }
    }
  }

  /** The positions of the contributing slots, in increasing order. */
  function ContributingSlots(slots: seq<Option<string>>): seq<nat> {
    Positions(Contributes, slots)
  }

  /** The extracted names are, one for one, the canonical forms of the
      contributing slots taken in slot order. */
  lemma {:induction false} ExtractFollowsSlots(slots: seq<Option<string>>)
    ensures |Extract(slots)| == |ContributingSlots(slots)|
    ensures forall k :: 0 <= k < |Extract(slots)| ==>
              Extract(slots)[k] == RecipeCanon(slots[ContributingSlots(slots)[k]].value)
  {
    if |slots| > 0 {
      var init, last := slots[..|slots| - 1], slots[|slots| - 1];
      ExtractFollowsSlots(init);
      var names, idx := Extract(init), ContributingSlots(init);
      var names', idx' := Extract(slots), ContributingSlots(slots);
      if Contributes(last) {
        assert names' == names + [RecipeCanon(last.value)];
        assert idx' == idx + [|slots| - 1];
      } else {
        assert names' == names && idx' == idx;
      }
      forall k | 0 <= k < |names'|
        ensures names'[k] == RecipeCanon(slots[idx'[k]].value)
      {
        if k < |names| {
          assert slots[idx[k]] == init[idx[k]];
        }
      }
    }
  }

  /** Every contributing slot shows up in the extraction, and every extracted
      name comes from a contributing slot. */
  lemma ExtractMembership(slots: seq<Option<string>>, n: string)
    ensures n in Extract(slots) <==>
              exists j :: 0 <= j < |slots| && Contributes(slots[j]) && n == RecipeCanon(slots[j].value)
  {
    ExtractFollowsSlots(slots);
    var names, idx := Extract(slots), ContributingSlots(slots);
    if n in names {
      var k :| 0 <= k < |names| && names[k] == n;
      assert Contributes(slots[idx[k]]);
    }
    if j :| 0 <= j < |slots| && Contributes(slots[j]) && n == RecipeCanon(slots[j].value) {
      var k :| 0 <= k < |idx| && idx[k] == j;
      assert names[k] == n;
    }
  }

  /** A drink extracts no ingredient exactly when none of its slots contributes. */
  lemma ExtractEmptyIffNoneContributes(slots: seq<Option<string>>)
    ensures Extract(slots) == [] <==> forall j :: 0 <= j < |slots| ==> !Contributes(slots[j])
  {
    ExtractFollowsSlots(slots);
    var idx := ContributingSlots(slots);
    if j :| 0 <= j < |slots| && Contributes(slots[j]) {
      assert j in idx;
    }
  }

  /** `extract_ingredients(cocktail)` (pb.py:29-35): walks `strIngredient1` to
      `strIngredient15` and appends the canonical form of every present,
      non-blank one. */
  method ExtractIngredients(d: Drink) returns (ingredients: seq<string>)
    ensures ingredients == Extract(Slots(d))
    ensures |ingredients| <= SlotCount
    ensures forall k :: 0 <= k < |ingredients| ==> WellFormedName(ingredients[k])
  {
    ingredients := [];
    for i := 1 to SlotCount + 1
      invariant ingredients == Extract(Slots(d)[..i - 1])
    {
      var ing := Get(d, IngredientField(i));
      var prefix := Slots(d)[..i];
      assert prefix[..i - 1] == Slots(d)[..i - 1] && prefix[i - 1] == ing;
      if Contributes(ing) {
        ingredients := ingredients + [RecipeCanon(ing.value)];
      }
    }
    assert Slots(d)[..SlotCount] == Slots(d);
    ExtractWellFormed(Slots(d));
  }

  /** Fields other than the fifteen ingredient fields (the drink's name, its
      measures, its instructions) never change what is extracted. */
  lemma OtherFieldsIgnored(d: Drink, field: string, v: Option<string>)
    requires forall i :: 1 <= i <= SlotCount ==> field != IngredientField(i)
    ensures Extract(Slots(d[field := v])) == Extract(Slots(d))
  {
    assert Slots(d[field := v]) == Slots(d);
  }
}
