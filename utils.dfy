/**
 * The string and formatting helpers of assets/JS/utils.js that hold
 * logic: `capitalizeFirst`, `formatCategory` (a hyphenated category slug
 * such as "mens-shirts" becomes "Mens Shirts") and the star counts of
 * `generateStarRating`.
 */
module Utils {
  import opened Chars

  // ---------------------------------------------------------------------
  // capitalizeFirst
  // ---------------------------------------------------------------------

  /**
   * `capitalizeFirst`: `''` for the empty string, otherwise the first
   * character upper-cased and the rest as it was.
   */
  function CapitalizeFirst(s: string): (r: string)
    ensures s == "" ==> r == ""
    ensures |r| == |s|
    ensures s != "" ==> r[0] == Upper(s[0]) && r[1..] == s[1..]
  {
    if s == "" then "" else [Upper(s[0])] + s[1..]
  }

  /** Capitalising twice is capitalising once. */
  lemma CapitalizeFirstIdempotent(s: string)
    ensures CapitalizeFirst(CapitalizeFirst(s)) == CapitalizeFirst(s)
  {
    if s != "" {
      var r := CapitalizeFirst(s);
      UpperIdempotent(s[0]);
      assert CapitalizeFirst(r) == [Upper(r[0])] + r[1..];
      assert r == [r[0]] + r[1..];
    }
  }

  // ---------------------------------------------------------------------
  // formatCategory = split('-'), map(capitalizeFirst), join(' ')
  // ---------------------------------------------------------------------

  /** `s.split('-')`: the pieces between hyphens, empty ones included. */
  function SplitOnHyphen(s: string): (words: seq<string>)
    ensures |words| >= 1
  {
    if s == [] then [""]
    else if s[0] == '-' then [""] + SplitOnHyphen(s[1..])
    else
      var rest := SplitOnHyphen(s[1..]);
      [[s[0]] + rest[0]] + rest[1..]
  }

  /** `words.join(' ')`. */
  function JoinWithSpace(words: seq<string>): string
  {
    if |words| == 0 then ""
    else if |words| == 1 then words[0]
    else words[0] + " " + JoinWithSpace(words[1..])
  }

  /** `words.map(word => capitalizeFirst(word))`. */
  function CapitalizeAll(words: seq<string>): (r: seq<string>)
    ensures |r| == |words|
    ensures forall k :: 0 <= k < |words| ==> r[k] == CapitalizeFirst(words[k])
  {
    seq(|words|, k requires 0 <= k < |words| => CapitalizeFirst(words[k]))
  }

  /** `formatCategory`: `''` for the empty string. */
  function FormatCategory(category: string): (r: string)
    ensures category == "" ==> r == ""
    ensures |r| == |category|
  {
    if category == "" then ""
    else
      SplitCapitalizeJoin(category, true);
      JoinWithSpace(CapitalizeAll(SplitOnHyphen(category)))
  }

  /**
   * The same formatting defined one character at a time: a hyphen becomes
   * a space, and a character that starts a word (`atWordStart` for the
   * first one, else it follows a hyphen) is upper-cased.
   */
  function TitleCase(s: string, atWordStart: bool): (r: string)
    ensures |r| == |s|
  {
    if s == [] then []
    else
      var c := if s[0] == '-' then ' ' else if atWordStart then Upper(s[0]) else s[0];
      [c] + TitleCase(s[1..], s[0] == '-')
  }

  lemma JoinConsFirst(x: char, w: string, words: seq<string>)
    ensures JoinWithSpace([[x] + w] + words) == [x] + JoinWithSpace([w] + words)
  {
    if |words| > 0 {
      assert ([[x] + w] + words)[1..] == words;
      assert ([w] + words)[1..] == words;
    }
  }

  /**
   * Split, capitalise and join, with the first word left as it is when
   * the text does not start a word (it continues one before a hyphen).
   */
  function Joined(s: string, atWordStart: bool): string
  {
    var words := SplitOnHyphen(s);
    JoinWithSpace(if atWordStart then CapitalizeAll(words) else [words[0]] + CapitalizeAll(words[1..]))
  }

  lemma HyphenStep(s: string, atWordStart: bool)
    requires s != [] && s[0] == '-'
    requires Joined(s[1..], true) == TitleCase(s[1..], true)
    ensures Joined(s, atWordStart) == TitleCase(s, atWordStart)
  {
    var words, rest := SplitOnHyphen(s), SplitOnHyphen(s[1..]);
    assert words == [""] + rest;
    var caps := if atWordStart then CapitalizeAll(words) else [words[0]] + CapitalizeAll(words[1..]);
    assert caps == [""] + CapitalizeAll(rest);
    assert caps[1..] == CapitalizeAll(rest);
  }

  lemma CapitalizeAllCons(w: string, words: seq<string>)
    ensures CapitalizeAll([w] + words) == [CapitalizeFirst(w)] + CapitalizeAll(words)
  {
  }

  lemma LetterStep(s: string, atWordStart: bool)
    requires s != [] && s[0] != '-'
    requires Joined(s[1..], false) == TitleCase(s[1..], false)
    ensures Joined(s, atWordStart) == TitleCase(s, atWordStart)
  {
    var rest := SplitOnHyphen(s[1..]);
    var tail := CapitalizeAll(rest[1..]);
    var head := if atWordStart then Upper(s[0]) else s[0];
    assert SplitOnHyphen(s) == [[s[0]] + rest[0]] + rest[1..];
    if atWordStart {
      CapitalizeAllCons([s[0]] + rest[0], rest[1..]);
      assert CapitalizeFirst([s[0]] + rest[0]) == [head] + rest[0];
    } else {
      assert (SplitOnHyphen(s))[1..] == rest[1..];
    }
    assert Joined(s, atWordStart) == JoinWithSpace([[head] + rest[0]] + tail);
    JoinConsFirst(head, rest[0], tail);
  }

  /**
   * Splitting on hyphens, capitalising the words (all of them, or all but
   * the first when the text does not start a word) and joining them with
   * spaces is `TitleCase`.
   */
  lemma {:induction false} SplitCapitalizeJoin(s: string, atWordStart: bool)
    ensures Joined(s, atWordStart) == TitleCase(s, atWordStart)
  {
    if s == [] {
    } else if s[0] == '-' {
      SplitCapitalizeJoin(s[1..], true);
      HyphenStep(s, atWordStart);
    } else {
      SplitCapitalizeJoin(s[1..], false);
      LetterStep(s, atWordStart);
    }
  }

  /** `formatCategory` is `TitleCase`, starting at a word. */
  lemma FormatCategoryIsTitleCase(category: string)
    ensures FormatCategory(category) == TitleCase(category, true)
  {
    SplitCapitalizeJoin(category, true);
  }

  lemma {:induction false} TitleCaseAt(s: string, atWordStart: bool, i: nat)
    requires i < |s|
    ensures TitleCase(s, atWordStart)[i] ==
      if s[i] == '-' then ' '
      else if (i == 0 && atWordStart) || (i > 0 && s[i - 1] == '-') then Upper(s[i])
      else s[i]
  {
    if i > 0 {
      TitleCaseAt(s[1..], s[0] == '-', i - 1);
    }
  }

  /** The character `formatCategory` puts at index `i`. */
  function FormattedChar(category: string, i: nat): char
    requires i < |category|
  {
    if category[i] == '-' then ' '
    else if i == 0 || category[i - 1] == '-' then Upper(category[i])
    else category[i]
  }

  /**
   * `formatCategory` character by character: output as long as the input,
   * each hyphen a space, the first character and each character after a
   * hyphen upper-cased, the others kept; `''` for `''`.
   */
  lemma FormatCategoryAt(category: string)
    ensures category == "" ==> FormatCategory(category) == ""
    ensures |FormatCategory(category)| == |category|
    ensures forall i :: 0 <= i < |category| ==> FormatCategory(category)[i] == FormattedChar(category, i)
  {
    FormatCategoryIsTitleCase(category);
    var r := TitleCase(category, true);
    forall i | 0 <= i < |category| ensures r[i] == FormattedChar(category, i) {
      TitleCaseAt(category, true, i);
    }
  }

  /** The formatted name has no hyphen left. */
  lemma FormatCategoryNoHyphen(category: string)
    ensures '-' !in FormatCategory(category)
  {
    FormatCategoryAt(category);
    var r := FormatCategory(category);
    forall i | 0 <= i < |r| ensures r[i] != '-' {
      assert r[i] == FormattedChar(category, i);
    }
  }

  /** Formatting an already formatted name changes nothing. */
  lemma FormatCategoryIdempotent(category: string)
    ensures FormatCategory(FormatCategory(category)) == FormatCategory(category)
  {
    var once := FormatCategory(category);
    FormatCategoryAt(category);
    FormatCategoryNoHyphen(category);
    FormatCategoryAt(once);
    var twice := FormatCategory(once);
    forall i | 0 <= i < |once| ensures twice[i] == once[i] {
      assert twice[i] == FormattedChar(once, i);
      assert once[i] == FormattedChar(category, i);
      assert once[i] != '-';
      if i == 0 {
        UpperIdempotent(category[0]);
      } else {
        assert once[i - 1] != '-';
      }
    }
  }

  // ---------------------------------------------------------------------
  // generateStarRating
  // ---------------------------------------------------------------------

  const FullStar: char := '\U{2605}'
  const HalfStar: char := '\U{00BD}'
  const EmptyStar: char := '\U{2606}'

  /** `Math.trunc`, which JavaScript's `%` rounds the quotient with. */
  function Trunc(r: real): int
  {
    if r >= 0.0 then r.Floor else -((-r).Floor)
  }

  /**
   * `rating % 1`: the remainder takes the sign of `rating`.  For a
   * negative rating it is not the fractional part `rating - floor(rating)`
   * (at -0.3 it is -0.3, not 0.7), so no half star is drawn there.
   */
  function RemainderOne(rating: real): (f: real)
    ensures -1.0 < f < 1.0
    ensures rating >= 0.0 ==> f == rating - rating.Floor as real && 0.0 <= f
    ensures rating < 0.0 ==> -1.0 < f <= 0.0
  {
    rating - Trunc(rating) as real
  }

  datatype StarCounts = StarCounts(full: int, half: bool, empty: int)

  /** `fullStars`, `halfStar` and `emptyStars` of `generateStarRating`. */
  function Counts(rating: real): (r: StarCounts)
    ensures r.full == rating.Floor
    ensures rating >= 0.0 ==> (r.half <==> rating - rating.Floor as real >= 0.5)
    ensures rating < 0.0 ==> !r.half
    ensures r.full + (if r.half then 1 else 0) + r.empty == 5
  {
    var full := rating.Floor;
    var half := RemainderOne(rating) >= 0.5;
    StarCounts(full, half, 5 - full - (if half then 1 else 0))
  }

  /** `n`, or 0 when `n` is negative. */
  function NonNeg(n: int): nat { if n > 0 then n else 0 }

  /** `n` copies of `c`; none when `n` is not positive. */
  function Repeat(c: char, n: int): (r: string)
    ensures |r| == NonNeg(n)
    ensures forall i :: 0 <= i < |r| ==> r[i] == c
  {
    if n <= 0 then [] else Repeat(c, n - 1) + [c]
  }

  /** The symbols for given counts: full stars, an optional half star, empty stars. */
  function Symbols(counts: StarCounts): string
  {
    Repeat(FullStar, counts.full) + (if counts.half then [HalfStar] else []) + Repeat(EmptyStar, counts.empty)
  }

  /**
   * The star string of `generateStarRating`, built by its two counting
   * loops around the optional half star.
   */
  method StarRating(rating: real) returns (stars: string)
    ensures stars == Symbols(Counts(rating))
  {
    var counts := Counts(rating);
    var fullStars, halfStar, emptyStars := counts.full, counts.half, counts.empty;
    stars := "";
    var i := 0;
    while i < fullStars
      invariant 0 <= i <= NonNeg(fullStars)
      invariant stars == Repeat(FullStar, i)
    {
      stars := stars + [FullStar];
      i := i + 1;
    }
    assert stars == Repeat(FullStar, fullStars);
    if halfStar {
      stars := stars + [HalfStar];
    }
    var prefix := stars;
    i := 0;
    while i < emptyStars
      invariant 0 <= i <= NonNeg(emptyStars)
      invariant stars == prefix + Repeat(EmptyStar, i)
    {
      stars := stars + [EmptyStar];
      i := i + 1;
    }
    assert Repeat(EmptyStar, i) == Repeat(EmptyStar, emptyStars);
  }

  /**
   * For a rating between 0 and 5: `floor(rating)` full stars, a half star
   * iff the fractional part is at least one half, the rest empty, always
   * five symbols in all.
   */
  lemma StarCountsInRange(rating: real)
    requires 0.0 <= rating <= 5.0
    ensures Counts(rating).full == rating.Floor && 0 <= Counts(rating).full <= 5
    ensures Counts(rating).half <==> rating - rating.Floor as real >= 0.5
    ensures Counts(rating).empty >= 0
    ensures Counts(rating).full + (if Counts(rating).half then 1 else 0) + Counts(rating).empty == 5
    ensures |Symbols(Counts(rating))| == 5
  {
  }

  /** Above five stars the empty-star count goes negative and no empty star is drawn. */
  lemma NoEmptyStarsWhenNegative(counts: StarCounts)
    requires counts.empty < 0
    ensures Symbols(counts) == Repeat(FullStar, counts.full) + (if counts.half then [HalfStar] else [])
  {
  }
}
