/**
 * `extract_model_number` (main.py:170-184): `re.search` of
 * `(\d{1,3}(?:\s*[A-Za-z+]*\s*\d{0,3})*)` and its first group.
 *
 * The search starts at the first digit (the pattern cannot match elsewhere).  From there
 * `\d{1,3}` takes up to three digits and the starred group repeats greedily, each round
 * taking white space, then letters and `+`, then white space, then up to three digits, and
 * the repetition stops at the first round that takes nothing.  `GreedyEnd` follows those
 * rounds; `RunEnd` is the plain definition of where the capture ends, and `GreedyIsRun`
 * proves the two agree.
 */
module ModelNumbers {
  import opened Wrappers
  import opened Text

  /** `[A-Za-z+]` */
  predicate IsLetterOrPlus(c: char) { IsAsciiLetter(c) || c == '+' }

  /** The characters a model number is made of */
  predicate IsModelChar(c: char) { IsDigit(c) || IsLetterOrPlus(c) || IsSpace(c) }

  /** The end of the run of `[A-Za-z+]` that starts at `i` */
  function LettersEnd(s: string, i: nat): (j: nat)
    requires i <= |s|
    ensures i <= j <= |s|
    ensures forall k :: i <= k < j ==> IsLetterOrPlus(s[k])
    ensures j < |s| ==> !IsLetterOrPlus(s[j])
    decreases |s| - i
  {
    if i == |s| || !IsLetterOrPlus(s[i]) then i else LettersEnd(s, i + 1)
  }

  /** The end of `\d{0,n}` from `i`, greedy */
  function DigitsUpTo(s: string, i: nat, n: nat): (j: nat)
    requires i <= |s|
    ensures i <= j <= |s| && j <= i + n
    ensures forall k :: i <= k < j ==> IsDigit(s[k])
    ensures j < i + n && j < |s| ==> !IsDigit(s[j])
    decreases n
  {
    if n == 0 || i == |s| || !IsDigit(s[i]) then i else DigitsUpTo(s, i + 1, n - 1)
  }

  /** Where one round of `\s*[A-Za-z+]*\s*\d{0,3}` starting at `i` ends */
  function RoundEnd(s: string, i: nat): (j: nat)
    requires i <= |s|
    ensures i <= j <= |s|
    ensures forall k :: i <= k < j ==> IsModelChar(s[k])
    ensures j == i <==> i == |s| || !IsModelChar(s[i])
  {
    var a := SkipSpaces(s, i);
    var b := LettersEnd(s, a);
    var c := SkipSpaces(s, b);
    DigitsUpTo(s, c, 3)
  }

  /** The starred group: rounds are taken until one takes nothing. */
  function GreedyEnd(s: string, i: nat): (j: nat)
    requires i <= |s|
    ensures i <= j <= |s|
    decreases |s| - i
  {
    var j := RoundEnd(s, i);
    if j == i then i else GreedyEnd(s, j)
  }

  /** The end of the run of model characters that starts at `i` */
  function RunEnd(s: string, i: nat): (j: nat)
    requires i <= |s|
    ensures i <= j <= |s|
    ensures forall k :: i <= k < j ==> IsModelChar(s[k])
    ensures j < |s| ==> !IsModelChar(s[j])
    decreases |s| - i
  {
    if i == |s| || !IsModelChar(s[i]) then i else RunEnd(s, i + 1)
  }

  /** A run ends at the same place whichever of its positions it is measured from. */
  lemma {:induction false} RunEndFrom(s: string, i: nat, j: nat)
    requires i <= |s| && i <= j <= RunEnd(s, i)
    ensures RunEnd(s, j) == RunEnd(s, i)
    decreases j - i
  {
    if i < j {
      RunEndFrom(s, i + 1, j);
    }
  }

  /** Repeating the rounds of the starred group consumes exactly the run of model characters. */
  lemma {:induction false} GreedyIsRun(s: string, i: nat)
    requires i <= |s|
    ensures GreedyEnd(s, i) == RunEnd(s, i)
    decreases |s| - i
  {
    var j := RoundEnd(s, i);
    if j != i {
      RunEndFrom(s, i, j);
      GreedyIsRun(s, j);
    }
  }

  /** The first digit at or after `i` */
  function FirstDigit(s: string, i: nat): (r: Option<nat>)
    requires i <= |s|
    ensures r.None? <==> forall k :: i <= k < |s| ==> !IsDigit(s[k])
    ensures r.Some? ==> i <= r.value < |s| && IsDigit(s[r.value])
    ensures r.Some? ==> forall k :: i <= k < r.value ==> !IsDigit(s[k])
    decreases |s| - i
  {
    if i == |s| then None
    else if IsDigit(s[i]) then Some(i)
    else FirstDigit(s, i + 1)
  }

  /**
   * `m` occurs in `s` at `d`, no digit comes before `d`, and the character after `m`, if
   * any, is not a model character.
   */
  predicate FoundAt(s: string, d: int, m: string) {
    0 <= d && d + |m| <= |s| && s[d..d + |m|] == m
    && (forall k :: 0 <= k < d ==> !IsDigit(s[k]))
    && (d + |m| < |s| ==> !IsModelChar(s[d + |m|]))
  }

  /** `extract_model_number` */
  function ExtractModelNumber(s: string): (r: Option<string>)
  {
    match FirstDigit(s, 0)
    case None => None
    case Some(d) => Some(s[d..GreedyEnd(s, DigitsUpTo(s, d, 3))])
  }

  /**
   * A model number is found exactly when the string holds a digit; it starts at the first
   * digit and is the whole run of digits, ASCII letters, `+` and white space from there.
   */
  lemma ModelNumberFound(s: string)
    ensures var r := ExtractModelNumber(s);
      && (r.None? <==> forall k :: 0 <= k < |s| ==> !IsDigit(s[k]))
      && (r.Some? ==> |r.value| > 0 && IsDigit(r.value[0]))
      && (r.Some? ==> forall k :: 0 <= k < |r.value| ==> IsModelChar(r.value[k]))
      && (r.Some? ==> exists d :: FoundAt(s, d, r.value))
  {
    match FirstDigit(s, 0)
    case None =>
    case Some(d) =>
      var e := DigitsUpTo(s, d, 3);
      var n := RunEnd(s, e);
      assert forall k :: d <= k < e ==> IsModelChar(s[k]);
      ModelNumberAt(s, d, n);
      RunFound(s, d, n);
  }

  /** The run of model characters from the first digit, seen as the found string */
  lemma RunFound(s: string, d: nat, n: nat)
    requires d < n <= |s| && IsDigit(s[d])
    requires forall k :: 0 <= k < d ==> !IsDigit(s[k])
    requires forall k :: d <= k < n ==> IsModelChar(s[k])
    requires n < |s| ==> !IsModelChar(s[n])
    ensures var m := s[d..n];
      && |m| > 0 && IsDigit(m[0])
      && (forall k :: 0 <= k < |m| ==> IsModelChar(m[k]))
      && FoundAt(s, d, m)
  {
    var m := s[d..n];
    forall k | 0 <= k < |m| ensures IsModelChar(m[k]) {
      assert m[k] == s[d + k];
    }
  }

  /** Where the first digit is and where the run after it ends decide the result. */
  lemma ModelNumberAt(s: string, d: nat, n: nat)
    requires d < n <= |s| && IsDigit(s[d])
    requires forall k :: 0 <= k < d ==> !IsDigit(s[k])
    requires forall k :: d <= k < n ==> IsModelChar(s[k])
    requires n < |s| ==> !IsModelChar(s[n])
    ensures ExtractModelNumber(s) == Some(s[d..n])
  {
    var r := FirstDigit(s, 0);
    assert r == Some(d);
    var e := DigitsUpTo(s, d, 3);
    assert e <= n;
    GreedyIsRun(s, e);
    assert RunEnd(s, e) == n;
  }

  /** The title from the documentation of `match_products` */
  const HonorTitle := "Honor 200 Lite 8/256 Green -"

  /** The character facts about `HonorTitle` that the example below needs */
  lemma HonorTitleChars(t: string)
    requires t == HonorTitle
    ensures |t| > 16 && IsDigit(t[6]) && t[6..16] == "200 Lite 8" && !IsModelChar(t[16])
    ensures forall k :: 0 <= k < 6 ==> !IsDigit(t[k])
    ensures forall k :: 6 <= k < 16 ==> IsModelChar(t[k])
  {
    assert t[16] == '/';
  }

  /** The slash ends the model number: "Honor 200 Lite 8/256 Green -" gives "200 Lite 8". */
  lemma HonorModelNumber(t: string)
    requires t == HonorTitle
    ensures ExtractModelNumber(t) == Some("200 Lite 8")
  {
    HonorTitleChars(t);
    ModelNumberAt(t, 6, 16);
  }
}
