/** Ingredient-name canonicalisation (pb.py lines 34 and 62).

    A recipe's ingredient name is canonicalised by `strip`, then `lower`, then
    replacing every space with an underscore; the user's selections skip the
    `strip`. Both are modelled here, separately, so the asymmetry stays visible.
 */
module Text {

  /** Python's `str.isspace`: the characters `str.strip()` removes when called
      without an argument. */
  predicate IsSpace(c: char) {
    || '\t' <= c <= '\r'                  // tab, line feed, vertical tab, form feed, carriage return
    || '\U{1C}' <= c <= ' '               // file/group/record/unit separators and the space
    || c == '\U{85}' || c == '\U{A0}' || c == '\U{1680}'
    || '\U{2000}' <= c <= '\U{200A}'
    || c == '\U{2028}' || c == '\U{2029}' || c == '\U{202F}' || c == '\U{205F}' || c == '\U{3000}'
  }

  predicate IsUpper(c: char) {
    'A' <= c <= 'Z'
  }

  /** True when every character of `s` is whitespace (the empty string included). */
  predicate Blank(s: string) {
    forall i :: 0 <= i < |s| ==> IsSpace(s[i])
  }

  // ---------------------------------------------------------------- strip

  /** The position of the first non-whitespace character of `s` at or after
      `i`, or `|s|` when there is none. */
  function SkipSpaces(s: string, i: nat): (a: nat)
    requires i <= |s|
    ensures i <= a <= |s|
    ensures forall k :: i <= k < a ==> IsSpace(s[k])
    ensures a < |s| ==> !IsSpace(s[a])
    decreases |s| - i
  {
    if i < |s| && IsSpace(s[i]) then SkipSpaces(s, i + 1) else i
  }

  /** The position just after the last non-whitespace character of `s`
      before `j`, and no lower than `a`. */
  function SkipSpacesBack(s: string, a: nat, j: nat): (b: nat)
    requires a <= j <= |s|
    ensures a <= b <= j
    ensures forall k :: b <= k < j ==> IsSpace(s[k])
    ensures b > a ==> !IsSpace(s[b - 1])
  {
    if j > a && IsSpace(s[j - 1]) then SkipSpacesBack(s, a, j - 1) else j
  }

  /** `r` is `s` with some whitespace, and nothing else, removed from its two ends. */
  ghost predicate IsTrimOf(r: string, s: string) {
    exists a, b :: 0 <= a <= b <= |s| && r == s[a..b]
                   && (forall i :: 0 <= i < a ==> IsSpace(s[i]))
                   && (forall i :: b <= i < |s| ==> IsSpace(s[i]))
  }

  /** Python's `str.strip()`: the longest infix of `s` that neither starts nor
      ends with whitespace, empty exactly when `s` is blank. */
  function Strip(s: string): (r: string)
    ensures IsTrimOf(r, s)
    ensures |r| > 0 ==> !IsSpace(r[0]) && !IsSpace(r[|r| - 1])
    ensures r == [] <==> Blank(s)
  {
    var a := SkipSpaces(s, 0);
    var b := SkipSpacesBack(s, a, |s|);
    s[a..b]
  }

  /** Stripping a string whose two ends are not whitespace changes nothing. */
  lemma StripKeepsTrimmed(s: string)
    requires |s| > 0 ==> !IsSpace(s[0]) && !IsSpace(s[|s| - 1])
    ensures Strip(s) == s
  {
  }

  // ---------------------------------------------------------------- lower

  /** ASCII lowering: 'A'..'Z' become 'a'..'z', everything else is unchanged. */
  function LowerChar(c: char): (r: char)
    ensures !IsUpper(r)
    ensures IsSpace(r) <==> IsSpace(c)
    ensures r == ' ' <==> c == ' '
    ensures !IsUpper(c) ==> r == c
    ensures IsUpper(c) ==> r as int == c as int + 32
  {
    if IsUpper(c) then (c as int + 32) as char else c
  }

  /** `str.lower()`, approximated on ASCII. */
  function Lower(s: string): (r: string)
    ensures |r| == |s|
    ensures forall i :: 0 <= i < |s| ==> r[i] == LowerChar(s[i])
    ensures forall i :: 0 <= i < |r| ==> !IsUpper(r[i])
    ensures forall i :: 0 <= i < |r| ==> (IsSpace(r[i]) <==> IsSpace(s[i])) && (r[i] == ' ' <==> s[i] == ' ')
  {
    seq(|s|, i requires 0 <= i < |s| => LowerChar(s[i]))
  }

  // ---------------------------------------------------------------- replace

  /** `str.replace(" ", "_")`. */
  function ReplaceSpaces(s: string): (r: string)
    ensures |r| == |s|
    ensures forall i :: 0 <= i < |r| ==> r[i] != ' '
    ensures forall i :: 0 <= i < |s| && s[i] != ' ' ==> r[i] == s[i]
    ensures forall i :: 0 <= i < |s| && s[i] == ' ' ==> r[i] == '_'
  {
    seq(|s|, i requires 0 <= i < |s| => if s[i] == ' ' then '_' else s[i])
  }

  // ---------------------------------------------------------------- canonical forms

  /** No upper-case ASCII letter and no space character. */
  predicate LowerNoSpaces(n: string) {
    forall i :: 0 <= i < |n| ==> !IsUpper(n[i]) && n[i] != ' '
  }

  /** The shape of every recipe-side canonical name: lower case, no spaces, and
      no whitespace at either end. */
  predicate IsCanonical(n: string) {
    && LowerNoSpaces(n)
    && (|n| > 0 ==> !IsSpace(n[0]) && !IsSpace(n[|n| - 1]))
  }

  /** Recipe-side canonicalisation `strip().lower().replace(" ", "_")` (pb.py:34). */
  function RecipeCanon(s: string): (r: string)
    ensures IsCanonical(r)
    ensures |r| == |Strip(s)|
    ensures r == [] <==> Blank(s)
  {
    var t := Strip(s);
    CanonicalOfTrimmed(t);
    ReplaceSpaces(Lower(t))
  }

  /** Lowering and replacing spaces in a string with no whitespace at either
      end yields a canonical name of the same length. */
  lemma CanonicalOfTrimmed(t: string)
    requires |t| > 0 ==> !IsSpace(t[0]) && !IsSpace(t[|t| - 1])
    ensures IsCanonical(ReplaceSpaces(Lower(t)))
  {
    var l := Lower(t);
    var r := ReplaceSpaces(l);
    if |t| > 0 {
      assert !IsSpace(l[0]) && !IsSpace(l[|l| - 1]);
      assert !IsSpace(r[0]) && !IsSpace(r[|r| - 1]);
    }
  }

  /** User-side canonicalisation `lower().replace(" ", "_")` (pb.py:62): no strip. */
  function UserCanon(s: string): (r: string)
    ensures LowerNoSpaces(r)
    ensures |r| == |s|
  {
    ReplaceSpaces(Lower(s))
  }

  /** The canonical names are exactly the fixpoints of recipe-side canonicalisation. */
  lemma RecipeCanonFixpoints(n: string)
    ensures RecipeCanon(n) == n <==> IsCanonical(n)
  {
    if IsCanonical(n) {
      StripKeepsTrimmed(n);
      assert Lower(n) == n;
      assert ReplaceSpaces(n) == n;
    }
  }

  /** Recipe-side canonicalisation is idempotent. */
  lemma RecipeCanonIdempotent(s: string)
    ensures RecipeCanon(RecipeCanon(s)) == RecipeCanon(s)
  {
    RecipeCanonFixpoints(RecipeCanon(s));
  }

  /** The user-side fixpoints are the lower-case, space-free strings; in
      particular user-side canonicalisation is idempotent. */
  lemma UserCanonFixpoints(n: string)
    ensures UserCanon(n) == n <==> LowerNoSpaces(n)
    ensures UserCanon(UserCanon(n)) == UserCanon(n)
  {
    if LowerNoSpaces(n) {
      assert Lower(n) == n;
      assert ReplaceSpaces(n) == n;
    }
    var u := UserCanon(n);
    assert Lower(u) == u;
    assert ReplaceSpaces(u) == u;
  }

  /** The two canonicalisations agree on a name exactly when that name has no
      surrounding whitespace: a selection like "Gin " never meets the recipe
      name "Gin " it was taken from. */
  lemma CanonsAgreeIffTrimmed(s: string)
    ensures UserCanon(s) == RecipeCanon(s) <==> Strip(s) == s
  {
    if UserCanon(s) == RecipeCanon(s) {
      assert |Strip(s)| == |s|;
      var a, b :| 0 <= a <= b <= |s| && Strip(s) == s[a..b];
      assert a == 0 && b == |s|;
    }
  }

  /** Two characters the user-side form cannot tell apart: equal, the two
      ASCII cases of one letter, or a space and an underscore. */
  predicate SameUpToCase(a: char, b: char) {
    || a == b
    || (IsUpper(a) && b as int == a as int + 32)
    || (IsUpper(b) && a as int == b as int + 32)
    || (a == ' ' && b == '_')
    || (a == '_' && b == ' ')
  }

  /** Two selections meet on the user side exactly when they have the same
      length and differ, position by position, only in ASCII case or in a
      space standing for an underscore. */
  lemma UserCanonEqualIff(s: string, t: string)
    ensures UserCanon(s) == UserCanon(t) <==>
              |s| == |t| && forall i :: 0 <= i < |s| ==> SameUpToCase(s[i], t[i])
  {
    if |s| == |t| && forall i :: 0 <= i < |s| ==> SameUpToCase(s[i], t[i]) {
      forall i | 0 <= i < |s|
        ensures UserCanon(s)[i] == UserCanon(t)[i]
      {
      }
    }
  }

  /** The recipe-side form is the user-side form of the stripped name. */
  lemma RecipeCanonIsUserCanonOfStrip(s: string)
    ensures RecipeCanon(s) == UserCanon(Strip(s))
  {
  }
}
