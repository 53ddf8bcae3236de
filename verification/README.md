# The Mix Wiz: ingredient matching, in Dafny

The Mix Wiz is a small Streamlit app. The user picks the ingredients they have
from the catalog's ingredient list. The app fetches, one initial letter at a
time, every cocktail of TheCocktailDB whose name starts with a letter `a`-`z`.
Drinks whose names start with a digit or any other character are never
fetched. The app keeps the cocktails whose every ingredient the user has, and
shows one of them at random. This project models the logic part of the app,
in `pb.py`:

- **Name canonicalisation.** A recipe's ingredient name goes through
  `strip().lower().replace(" ", "_")` (line 34). The user's selections go through
  `lower().replace(" ", "_")` with no `strip` (line 62). Module `Text` models both,
  as `RecipeCanon` and `UserCanon`, and keeps them apart so that the asymmetry
  shows.
- **Ingredient extraction** (`extract_ingredients`, lines 29-35). It walks
  `strIngredient1` .. `strIngredient15` in order. It skips fields that are missing,
  `null`, empty or blank, and collects the canonical names in order, duplicates
  included. Module `Recipes` models this as the function `Extract` over the 15
  slots, and as the method `ExtractIngredients`, whose loop mirrors the source's.
- **Full-makeability filter** (`find_matching_cocktails`, lines 38-44). It keeps a
  drink when every extracted ingredient is in the user's list. An empty
  ingredient list passes vacuously. Kept drinks stay in input order, duplicates
  included. Module `Matcher` models this as `MatchingDrinks`, built on a generic
  order-preserving `Filter` (module `Filters`), and as the method
  `FindMatchingCocktails`. `Matcher.Search` models the branch structure of the
  button handler (lines 56-68). It returns the whole match list in place of the
  random pick.

Representation:

- A drink is a `map<string, Option<string>>` from field name to value. A missing
  field and a JSON `null` both read as `None`, as `dict.get` returns them.
- The user's selections are a `seq<string>`. Membership is list membership, as
  in the source.
- `Text.IsSpace` is the full character set of Python's `str.isspace`. That is
  exactly the set `str.strip()` removes.
- `Text.LowerChar` lowers ASCII letters only (see Left out).

Three facts about the code shape the model. The user's selections are not
stripped (pb.py:62), while recipe names are (pb.py:34). A truthy non-string
ingredient field, such as a non-zero number or a non-empty list, would make
`ing.strip()` raise (pb.py:33); falsy values such as `0`, `False` or `[]` are
skipped by the short-circuiting `and`. The model admits only strings and `null`.
The user's ingredients are a list, and membership is list membership (pb.py:42).

## Model

| member | source | states |
|---|---|---|
| Text.IsSpace | pb.py:33-34 | The whitespace set of Python's `str.isspace`, which is exactly what `str.strip()` removes: the control characters 9-13 and 28-31, the space, U+0085, U+00A0, U+1680, U+2000-U+200A, U+2028, U+2029, U+202F, U+205F and U+3000. |
| Text.LowerChar | pb.py:34 | Lowering maps each ASCII letter `A`-`Z` to the letter 32 code points on (`a`-`z`), keeps every other character as it is, leaves no upper-case ASCII letter, and never turns whitespace into non-whitespace or the reverse. |
| Text.Lower | pb.py:34 | `lower()` keeps the length, leaves no upper-case ASCII letter, and keeps whitespace and spaces exactly where they were. |
| Text.ReplaceSpaces | pb.py:34 | `replace(" ", "_")` keeps the length, leaves no space, turns each space into `_`, and keeps every other character. |
| Text.Strip | pb.py:33-34 | `strip()` removes only whitespace, and only from the two ends. Its result neither starts nor ends with whitespace. It is empty exactly when the input is blank. |
| Text.RecipeCanon | pb.py:34 | The recipe-side canonical name is lower case, has no space and no whitespace at either end, and is as long as the stripped input. It is empty exactly when the input is blank. |
| Text.UserCanon | pb.py:62 | The user-side name is lower case and has no space, but keeps the input's length: nothing is stripped. |
| Text.RecipeCanonFixpoints | pb.py:34 | Recipe-side canonicalisation leaves a name unchanged exactly when the name is canonical. |
| Text.RecipeCanonIdempotent | pb.py:34 | Applying `strip().lower().replace(" ", "_")` to its own output changes nothing. |
| Text.UserCanonFixpoints | pb.py:62 | The user-side form fixes exactly the lower-case, space-free strings, so it is idempotent. |
| Text.CanonsAgreeIffTrimmed | pb.py:62 | The user-side and recipe-side forms of one name are equal exactly when the name has no surrounding whitespace. |
| Text.UserCanonEqualIff | pb.py:62 | Two selections have the same user-side form exactly when they are equally long and, position by position, are equal, are the two ASCII cases of one letter, or are a space and an underscore. So case is ignored, and distinct letters stay distinct. |
| Text.RecipeCanonIsUserCanonOfStrip | pb.py:34 | The recipe-side form of a name is the user-side form of the stripped name: the two lines differ only in the `strip()`. |
| Recipes.Get | pb.py:32 | `cocktail.get(field)` reads a missing field as `None`, like a `null` one, and a present field as its value. |
| Recipes.Decimal | pb.py:32 | The f-string spelling of a slot number is a non-empty string of decimal digits. |
| Recipes.DecimalRoundTrip | pb.py:32 | That spelling has no leading zero and reads back as the number it spells. |
| Recipes.IngredientField | pb.py:32 | The field name `f"strIngredient{i}"`: the prefix followed by the decimal spelling of `i`. `IngredientFieldSpelling` and `IngredientFieldInjective` state what that name determines. |
| Recipes.IngredientFieldSpelling | pb.py:32 | `f"strIngredient{i}"` is the prefix `strIngredient` followed by digits that read back as `i`. |
| Recipes.Slots | pb.py:31-32 | The fifteen slots, in order, hold the values of `strIngredient1` .. `strIngredient15`. |
| Recipes.Contributes | pb.py:33 | The guard `ing and ing.strip()` admits a field exactly when it holds a string with a non-whitespace character. |
| Recipes.Extract | pb.py:29-35 | The functional form of `extract_ingredients`: never more names than slots. Its content is fixed by `ExtractFollowsSlots`. |
| Recipes.ExtractWellFormed | pb.py:33-34 | Every extracted name is non-empty, lower case, free of spaces, and has no whitespace at either end. |
| Recipes.ContributingSlots | pb.py:31-33 | The positions of the present, non-blank fields, in increasing order, as the generic `Filters.Positions` lists them for the guard. |
| Recipes.ExtractFollowsSlots | pb.py:31-34 | The extraction has one name per present, non-blank field, in field order: the canonical form of that field. |
| Recipes.ExtractMembership | pb.py:31-34 | A name is extracted exactly when it is the canonical form of some present, non-blank field. |
| Recipes.ExtractEmptyIffNoneContributes | pb.py:30-35 | Nothing is extracted exactly when all 15 fields are missing, null, empty or blank. |
| Recipes.ExtractIngredients | pb.py:29-35 | The loop over `strIngredient1..15` yields the extraction: at most 15 names, each well formed. |
| Recipes.OtherFieldsIgnored | pb.py:31-32 | Changing a field other than the 15 ingredient fields does not change the extraction. |
| Matcher.Makeable | pb.py:41-42 | The test `all(ing in user_ingredients for ing in drink_ings)`; `MakeableIffSlotsCovered` restates it in terms of the drink's fields. |
| Matcher.MatchingDrinks | pb.py:38-44 | The drinks `find_matching_cocktails` keeps: never more than the input, and each one is in the input and makeable. The lemmas below give the converse, order and duplicates. |
| Matcher.MatchingCounts | pb.py:39-44 | A makeable drink is kept as many times as it occurs. Any other drink is not kept. |
| Matcher.MatchingFollowsPositions | pb.py:39-44 | The result lists the drinks at the makeable positions, one for one and in input order. |
| Matcher.MatchingIsSubsequence | pb.py:39-44 | The result is an order-preserving subsequence of the input. |
| Matcher.MatchingMembership | pb.py:40-43 | A drink is in the result exactly when it is in the input and every one of its ingredients is on the user's list. |
| Matcher.MakeableIffSlotsCovered | pb.py:41-42 | A drink is makeable exactly when the canonical form of each of its present, non-blank fields is on the user's list. |
| Matcher.EmptyRecipeAlwaysMatches | pb.py:42 | A drink with no present, non-blank field is makeable from any list, the empty list included. It is kept every time it occurs. |
| Matcher.EmptySelectionMakesOnlyEmptyRecipes | pb.py:42 | From an empty list, exactly the drinks with no present, non-blank field are makeable. |
| Matcher.MakeableMonotonic | pb.py:42 | Adding ingredients to the user's list never makes a drink unmakeable. |
| Matcher.MatchingMonotonic | pb.py:38-44 | With more ingredients, the old result is an order-preserving subsequence of the new one. |
| Matcher.MatchingAppend | pb.py:38-44 | Filtering a concatenation of drink lists gives the concatenation of the filtered lists. This matches a catalog assembled letter by letter. |
| Matcher.MatchingIdempotent | pb.py:38-44 | Filtering the result again changes nothing. |
| Matcher.FindMatchingCocktails | pb.py:38-44 | The loop returns exactly the makeable drinks of the input, in order, duplicates included. |
| Matcher.NormalizeSelections | pb.py:62 | The list comprehension keeps the number and order of the selections and applies the user-side form to each. |
| Matcher.SurroundedSelectionNeverMatches | pb.py:62-63 | A selected name with surrounding whitespace never covers a recipe field holding that very name. |
| Matcher.TrimmedSelectionsMatch | pb.py:62-63 | A drink is found when each of its present, non-blank fields holds, verbatim, a selected name that has no surrounding whitespace. |
| Matcher.Search | pb.py:56-68 | An empty selection gives the warning. Otherwise the "no cocktails" error comes exactly when no catalog drink is makeable. Any other outcome is the whole, non-empty match list of `find_matching_cocktails`, in catalog order and with duplicates, so `random.choice` picks from the same list as the source. |
| Recipes.IngredientFieldInjective | pb.py:31-32 | Distinct slot numbers give distinct field names `strIngredient{i}`, so each slot reads its own field. |
| Scenarios.LemonDropFound | pb.py:56-68 | Selecting all three names of a three-ingredient drink, spelt as the catalog spells them, finds that drink. |
| Scenarios.LemonDropMissingIngredients | pb.py:56-66 | Selecting one of its three ingredients ends in the "no cocktails" error. |
| Scenarios.GinForms | pb.py:62 | The catalog's `"Gin "` becomes `gin` on the recipe side (line 34) but `gin_` on the user side. |
| Scenarios.GinShotSelectedVerbatim | pb.py:56-66 | Selecting `"Gin "` exactly as the catalog spells it does not find the drink whose only ingredient is `"Gin "`. |
| Scenarios.GinShotSelectedTrimmed | pb.py:56-68 | Selecting `"Gin"` does find that drink. |

## Left out

- `fetch_ingredients` and `fetch_all_cocktails` (pb.py:11-26), and `@st.cache_data`: these are network requests to TheCocktailDB plus response caching. The catalog enters the model as a plain `seq<Drink>`.
- Every Streamlit call (page setup, multiselect, button, spinner, warning, error, subheader, image, markdown, info): this is presentation. `Matcher.Search` names the three branches that the calls render.
- `random.choice` (pb.py:68): a nondeterministic presentation choice. `Matcher.Search` returns the whole match list instead.
- The display loop over ingredients and measures (pb.py:73-78), and the instructions fallback (pb.py:81): these are rendering.
- Text.LowerChar: lowers ASCII `A`-`Z` only. Python's `str.lower` also lowers non-ASCII letters, and can lengthen a string (`'İ'`); full Unicode case mapping is not modelled.
- Non-string field values: a truthy non-string ingredient field (a non-zero number, a non-empty list) would make `ing.strip()` raise in the source, while a falsy one is skipped. The model admits strings and `None` only.
- Any-overlap matching, ranking by missing-ingredient count, the missing-ingredient list, and glass/category/alcohol filters: these appear in other versions of the app, not in `pb.py`, and are not part of this model.
