/**
 * The line classifier of `clean_price_data` (utils.py:57-68): a prioritised cascade of
 * five noise patterns followed by the offer pattern `(.+)\s+(\d+)([\w/]+)?`.
 *
 * Each regular expression is written as a predicate saying that the line belongs to the
 * language of the pattern; the split points a regex engine would find by backtracking
 * appear as bounded existentials.  The only capturing pattern, the offer pattern, is
 * given by the split a greedy engine picks first: the rightmost one.
 *
 * Every predicate here is applied to a line that has already been stripped, so a `$`
 * never meets a final line feed and is written as "end of the line".
 */
module LineRules {
  import opened Wrappers
  import opened Text

  // ---------------------------------------------------------------- runs of one class

  /** `\s*` */
  predicate AllSpace(s: string) { forall k :: 0 <= k < |s| ==> IsSpace(s[k]) }

  /** `\d+` */
  predicate Digits(s: string) { |s| > 0 && forall k :: 0 <= k < |s| ==> IsDigit(s[k]) }

  /** `[\w\s]+` */
  predicate WordsAndSpaces(s: string) {
    |s| > 0 && forall k :: 0 <= k < |s| ==> IsWord(s[k]) || IsSpace(s[k])
  }

  /** `.*`: any characters but the line feed */
  predicate NoNewline(s: string) { forall k :: 0 <= k < |s| ==> s[k] != '\n' }

  /** The decoration class of utils.py:57: a few emoji, the variation selector U+FE0F,
      U+2066, U+200D, the private-use block U+F000..U+F8FF and the punctuation block
      U+2000..U+206F. */
  predicate IsMarker(c: char) {
    c == '♦' || c == '\U{FE0F}' || c == '🔸' || c == '⚜' || c == '🌐' || c == '🔥'
    || c == '📱' || c == '🪩' || c == '⚫' || c == '🫧' || c == '\U{2066}' || c == '\U{200D}'
    || '\U{F000}' <= c <= '\U{F8FF}' || '\U{2000}' <= c <= '\U{206F}'
  }

  /** `[♦️🔸… -⁯]+` */
  predicate Markers(s: string) { |s| > 0 && forall k :: 0 <= k < |s| ==> IsMarker(s[k]) }

  /** `[-━─≪≫]` */
  predicate IsSeparator(c: char) { c == '-' || c == '━' || c == '─' || c == '≪' || c == '≫' }

  /** `[\s\d-]*` */
  predicate SizeTail(s: string) {
    forall k :: 0 <= k < |s| ==> IsSpace(s[k]) || IsDigit(s[k]) || s[k] == '-'
  }

  /** `[-_\s:,.+]` */
  predicate IsTrailing(c: char) {
    c == '-' || c == '_' || IsSpace(c) || c == ':' || c == ',' || c == '.' || c == '+'
  }

  /** `[\w/]*` */
  predicate WordsAndSlashes(s: string) { forall k :: 0 <= k < |s| ==> IsWord(s[k]) || s[k] == '/' }

  // Each existential below ranges over one split point and names what must hold there
  // (`…At`), so that the solver only considers split points it is shown.

  // ---------------------------------------------------------------- shared shapes

  predicate DigitsSpacesAt(h: string, i: int) { 0 < i <= |h| && Digits(h[..i]) && AllSpace(h[i..]) }

  /** `\d+\s*` */
  predicate DigitsSpaces(h: string) { exists i :: 0 < i <= |h| && DigitsSpacesAt(h, i) }

  predicate SpacesDigitsAt(u: string, k: int) { 0 <= k < |u| && AllSpace(u[..k]) && Digits(u[k..]) }

  /** `\s*\d+` */
  predicate SpacesDigits(u: string) { exists k :: 0 <= k < |u| && SpacesDigitsAt(u, k) }

  // ---------------------------------------------------------------- line 57, alternative by alternative

  predicate ParentheticalAt(t: string, k: int) {
    1 <= k < |t| && t[k] == ')' && NoNewline(t[1..k]) && AllSpace(t[k + 1..])
  }

  /** `\(.*\)\s*`: a parenthetical line */
  predicate Parenthetical(t: string) {
    |t| >= 2 && t[0] == '(' && exists k :: 1 <= k < |t| && ParentheticalAt(t, k)
  }

  predicate FractionAt(t: string, j: int) {
    0 < j < |t| && t[j] == '/' && DigitsSpaces(t[..j]) && SpacesDigits(t[j + 1..])
  }

  // `\d+\s*/\s*\d+`: a count such as `2/10`
  predicate CountFraction(t: string) { exists j :: 0 < j < |t| && FractionAt(t, j) }

  predicate MarkersAfterAt(v: string, k: int) { 0 <= k < |v| && NoNewline(v[..k]) && Markers(v[k..]) }

  /** `.*[M]+` */
  predicate MarkersAfter(v: string) { exists k :: 0 <= k < |v| && MarkersAfterAt(v, k) }

  predicate MarkerTailAt(u: string, j: int) { 0 <= j <= |u| && AllSpace(u[..j]) && MarkersAfter(u[j..]) }

  /** `\s*.*[M]+` */
  predicate MarkerTail(u: string) { exists j :: 0 <= j <= |u| && MarkerTailAt(u, j) }

  predicate MarkerBracketedAt(t: string, i: int) { 0 < i <= |t| && Markers(t[..i]) && MarkerTail(t[i..]) }

  /** `[M]+\s*.*[M]+` over the decoration class M: a line bracketed by emoji */
  predicate MarkerBracketed(t: string) { exists i :: 0 < i <= |t| && MarkerBracketedAt(t, i) }

  /** `[-━─≪≫]+`: a separator line */
  predicate SeparatorRun(t: string) {
    |t| > 0 && forall k :: 0 <= k < |t| ==> IsSeparator(t[k])
  }

  predicate PiecesAt(c: string, j: int) {
    0 < j && j + 2 <= |c| && Digits(c[..j]) && c[j..j + 2] == "шт" && AllSpace(c[j + 2..])
  }

  /** `\d+шт\s*` */
  predicate Pieces(c: string) { exists j :: 0 < j && j + 2 <= |c| && PiecesAt(c, j) }

  predicate BulkCountAt(b: string, i: int) { 0 < i < |b| && AllSpace(b[..i]) && Pieces(b[i..]) }

  /** `\s+\d+шт\s*` */
  predicate BulkCount(b: string) { exists i :: 0 < i < |b| && BulkCountAt(b, i) }

  /** `\(От\s+\d+шт\s*\)`: a bulk-order notice such as `(От 10шт)` */
  predicate BulkNotice(t: string) {
    |t| >= 4 && t[..3] == "(От" && t[|t| - 1] == ')' && BulkCount(t[3..|t| - 1])
  }

  /** `\d+\s*-`: a count followed by a dash */
  predicate CountDash(t: string) {
    |t| >= 2 && t[|t| - 1] == '-' && DigitsSpaces(t[..|t| - 1])
  }

  predicate SizePairAt(t: string, k: int) {
    0 < k && k + 3 <= |t| && WordsAndSpaces(t[..k])
    && (t[k..k + 3] == "S/M" || t[k..k + 3] == "M/L" || t[k..k + 3] == "X/L")
    && SizeTail(t[k + 3..])
  }

  /** `[\w\s]+(S\/M|M\/L|X\/L)[\s\d-]*`: a clothing size chart row */
  predicate SizePair(t: string) { exists k :: 0 < k && k + 3 <= |t| && SizePairAt(t, k) }

  predicate IsSizeCode(c: string) {
    c == "SB" || c == "SL" || c == "AL" || c == "TL" || c == "BL" || c == "OB"
  }

  predicate SizeCodeAt(t: string, k: int) {
    0 < k && k + 2 <= |t| && WordsAndSpaces(t[..k]) && IsSizeCode(t[k..k + 2]) && SizeTail(t[k + 2..])
  }

  /** `[\w\s]+(SB|SL|AL|TL|BL|OB)[\s\d-]*`: a size code followed only by digits, spaces and dashes */
  predicate SizeCodeLine(t: string) { exists k :: 0 < k && k + 2 <= |t| && SizeCodeAt(t, k) }

  /** The alternation inside the group of utils.py:57 */
  predicate Decoration(t: string) {
    || Parenthetical(t)
    || CountFraction(t)
    || MarkerBracketed(t)
    || SeparatorRun(t)
    || BulkNotice(t)
    || CountDash(t)
    || SizePair(t)
    || SizeCodeLine(t)
  }

  predicate DecorationUpTo(u: string, b: int) { 0 <= b <= |u| && Decoration(u[..b]) && AllSpace(u[b..]) }

  /** `( … )\s*$` */
  predicate DecoratedRest(u: string) { exists b :: 0 <= b <= |u| && DecorationUpTo(u, b) }

  predicate DecorationFrom(s: string, a: int) { 0 <= a <= |s| && AllSpace(s[..a]) && DecoratedRest(s[a..]) }

  /** utils.py:57, `^\s*( … )\s*$` */
  predicate DecorationLine(s: string) { exists a :: 0 <= a <= |s| && DecorationFrom(s, a) }

  // ---------------------------------------------------------------- lines 59-65

  /** `\d{2}\.\d{2}\.\d{4}` */
  predicate DateStamp(d: string) {
    |d| == 10 && d[2] == '.' && d[5] == '.' &&
    forall k :: 0 <= k < 10 && k != 2 && k != 5 ==> IsDigit(d[k])
  }

  predicate DateAt(u: string, j: int) {
    0 <= j && j + 11 <= |u| && AllSpace(u[..j]) && u[j] == '[' && DateStamp(u[j + 1..j + 11])
  }

  /** `\s*\[\d{2}\.\d{2}\.\d{4}` followed by anything */
  predicate DateAfterComma(u: string) { exists j :: 0 <= j && j + 11 <= |u| && DateAt(u, j) }

  predicate DatedTagAt(s: string, i: int) {
    0 < i < |s| && WordsAndSpaces(s[..i]) && s[i] == ',' && DateAfterComma(s[i + 1..])
  }

  /** utils.py:59, `^[\w\s]+,\s*\[\d{2}\.\d{2}\.\d{4}` (a prefix match): a tag with a date */
  predicate DatedTag(s: string) { exists i :: 0 < i < |s| && DatedTagAt(s, i) }

  /** The double exclamation emoji `‼️`: U+203C followed by the variation selector U+FE0F */
  const Bang: string := "\U{203C}\U{FE0F}"

  /** utils.py:61, `^‼️.+‼️$` */
  predicate BangWrapped(s: string) {
    |s| >= 5 && s[..2] == Bang && s[|s| - 2..] == Bang && NoNewline(s[2..|s| - 2])
  }

  predicate CaptionAt(s: string, i: int) {
    0 < i < |s| && WordsAndSpaces(s[..i]) && forall k :: i <= k < |s| ==> IsTrailing(s[k])
  }

  /** utils.py:63, `^[\w\s\d]+[-_\s:,.+]+$`: words that end in punctuation only */
  predicate Caption(s: string) { exists i :: 0 < i < |s| && CaptionAt(s, i) }

  predicate LotHeadAt(h: string, i: int) { 0 < i <= |h| && WordsAndSpaces(h[..i]) && AllSpace(h[i..]) }

  /** `[\w\s]+\s*` */
  predicate LotHead(h: string) { exists i :: 0 < i <= |h| && LotHeadAt(h, i) }

  predicate LotUnitAt(v: string, m: int) { 0 <= m <= |v| && AllSpace(v[..m]) && WordsAndSlashes(v[m..]) }

  /** `\s*[\w/]*` */
  predicate LotUnit(v: string) { exists m :: 0 <= m <= |v| && LotUnitAt(v, m) }

  predicate LotNumberAt(u: string, l: int) { 0 < l <= |u| && Digits(u[..l]) && LotUnit(u[l..]) }

  /** `\d+\s*[\w/]*` */
  predicate LotNumber(u: string) { exists l :: 0 < l <= |u| && LotNumberAt(u, l) }

  predicate LotTailAt(t: string, k: int) { 0 <= k < |t| && AllSpace(t[..k]) && LotNumber(t[k..]) }

  /** `\s*\d+\s*[\w/]*` */
  predicate LotTail(t: string) { exists k :: 0 <= k < |t| && LotTailAt(t, k) }

  predicate LotSizeAt(s: string, j: int) {
    0 < j < |s| && s[j] == '-' && LotHead(s[..j]) && LotTail(s[j + 1..])
  }

  /** utils.py:65, `^[\w\s]+\s*-\s*\d+\s*[\w/]*$`: a lot size such as `SE2 40 - 20000` */
  predicate LotSize(s: string) { exists j :: 0 < j < |s| && LotSizeAt(s, j) }

  /** Any of the five noise patterns */
  predicate IsNoise(s: string) {
    DecorationLine(s) || DatedTag(s) || BangWrapped(s) || Caption(s) || LotSize(s)
  }

  // ---------------------------------------------------------------- the offer pattern, line 67

  predicate PriceStartsAt(s: string, n: int, e: int) {
    0 <= n < e < |s| && AllSpace(s[n..e]) && IsDigit(s[e])
  }

  /** `(.+)\s+(\d+)` can match with `(.+)` taking `s[..n]`. */
  predicate OfferSplitAt(s: string, n: int) {
    1 <= n < |s| && NoNewline(s[..n]) && exists e :: n < e < |s| && PriceStartsAt(s, n, e)
  }

  /** The index of the first line feed at or after `i` (|s| if none): where `.+` stops. */
  function LineEnd(s: string, i: nat): (j: nat)
    requires i <= |s|
    ensures i <= j <= |s|
    ensures forall k :: i <= k < j ==> s[k] != '\n'
    ensures j < |s| ==> s[j] == '\n'
    decreases |s| - i
  {
    if i == |s| || s[i] == '\n' then i else LineEnd(s, i + 1)
  }

  /** The greedy engine's search: `(.+)` tries the longest prefix first and gives back one
      character at a time, so the first split found, counting down from `n`, is taken. */
  function LastSplitFrom(s: string, n: nat): (r: Option<nat>)
    requires n < |s| && n <= LineEnd(s, 0)
    ensures r.Some? ==> r.value <= n && OfferSplitAt(s, r.value)
    ensures forall m :: m <= n && OfferSplitAt(s, m) ==> r.Some? && m <= r.value
    decreases n
  {
    if n == 0 then None
    else
      var e := SkipSpaces(s, n);
      if IsSpace(s[n]) && e < |s| && IsDigit(s[e]) then
        assert NoNewline(s[..n]);
        assert PriceStartsAt(s, n, e);
        Some(n)
      else
        assert !OfferSplitAt(s, n) by {
          if OfferSplitAt(s, n) {
            var e' :| n < e' < |s| && PriceStartsAt(s, n, e');
            assert IsSpace(s[n]) by { assert s[n..e'][0] == s[n]; }
            assert forall k :: n <= k < e' ==> IsSpace(s[k]) by {
              forall k | n <= k < e' ensures IsSpace(s[k]) { assert s[n..e'][k - n] == s[k]; }
            }
            SpaceIsNotWord(s[e']);
          }
        }
        LastSplitFrom(s, n - 1)
  }

  /** The split of `s` the offer pattern settles on: the rightmost one. */
  function OfferSplit(s: string): (r: Option<nat>)
    ensures r.Some? ==> OfferSplitAt(s, r.value)
    ensures r.Some? ==> forall m :: OfferSplitAt(s, m) ==> m <= r.value
    ensures r.None? ==> forall m :: !OfferSplitAt(s, m)
  {
    if |s| < 2 then None
    else
      var top := if LineEnd(s, 0) < |s| then LineEnd(s, 0) else |s| - 1;
      assert forall m :: OfferSplitAt(s, m) ==> m <= top by {
        forall m | OfferSplitAt(s, m) ensures m <= top {
        }
      }
      LastSplitFrom(s, top)
  }

  /** The end of the run of digits that starts at `i`: `\d+` is greedy. */
  function DigitRunEnd(s: string, i: nat): (j: nat)
    requires i <= |s|
    ensures i <= j <= |s|
    ensures forall k :: i <= k < j ==> IsDigit(s[k])
    ensures j < |s| ==> !IsDigit(s[j])
    decreases |s| - i
  {
    if i == |s| || !IsDigit(s[i]) then i else DigitRunEnd(s, i + 1)
  }

  /** The end of the run of `[\w/]` characters that starts at `i`: `([\w/]+)?` is greedy. */
  function WordSlashRunEnd(s: string, i: nat): (j: nat)
    requires i <= |s|
    ensures i <= j <= |s|
    ensures WordsAndSlashes(s[i..j])
    ensures j < |s| ==> !(IsWord(s[j]) || s[j] == '/')
    decreases |s| - i
  {
    if i == |s| || !(IsWord(s[i]) || s[i] == '/') then i else WordSlashRunEnd(s, i + 1)
  }

  /** The three groups of `(.+)\s+(\d+)([\w/]+)?`; an absent third group is "". */
  datatype OfferGroups = OfferGroups(name: string, price: string, region: string)

  /** `p` is what `(\d+)` captures after a split at `n`: the whole run of digits that
      starts at the first character past the white space. */
  predicate PriceGroupAt(s: string, n: nat, p: string)
    requires n <= |s|
  {
    var e := SkipSpaces(s, n);
    Digits(p) && e + |p| <= |s| && s[e..e + |p|] == p && (e + |p| == |s| || !IsDigit(s[e + |p|]))
  }

  /** After a split, the first character that is not white space starts the price. */
  lemma PriceGroup(s: string, n: nat)
    requires OfferSplitAt(s, n)
    ensures SkipSpaces(s, n) < |s| && IsDigit(s[SkipSpaces(s, n)])
    ensures PriceGroupAt(s, n, s[SkipSpaces(s, n)..DigitRunEnd(s, SkipSpaces(s, n))])
  {
    var e := SkipSpaces(s, n);
    var e' :| n < e' < |s| && PriceStartsAt(s, n, e');
    SpaceIsNotWord(s[e']);
    var f := DigitRunEnd(s, e);
    assert Digits(s[e..f]);
  }

  /** `re.match(r"(.+)\s+(\d+)([\w/]+)?", s)` and its `groups()` */
  function OfferMatch(s: string): (r: Option<OfferGroups>)
    ensures r.None? <==> forall m :: !OfferSplitAt(s, m)
    ensures r.Some? ==> OfferSplitAt(s, |r.value.name|) && r.value.name == s[..|r.value.name|]
    ensures r.Some? ==> forall m :: OfferSplitAt(s, m) ==> m <= |r.value.name|
    ensures r.Some? ==> PriceGroupAt(s, |r.value.name|, r.value.price)
  {
    match OfferSplit(s)
    case None => None
    case Some(n) =>
      PriceGroup(s, n);
      var e := SkipSpaces(s, n);
      var f := DigitRunEnd(s, e);
      var g := WordSlashRunEnd(s, f);
      Some(OfferGroups(s[..n], s[e..f], s[f..g]))
  }

  // ---------------------------------------------------------------- the cascade

  /** Which branch of the `if`/`elif` chain of utils.py:57-67 a line takes */
  datatype NoiseRule = DecorationRule | DatedTagRule | BangRule | CaptionRule | LotSizeRule

  datatype LineClass = Noise(rule: NoiseRule) | Offer(groups: OfferGroups) | NoShape

  function Classify(s: string): (r: LineClass)
    ensures r.Noise? <==> IsNoise(s)
    ensures r.Offer? <==> !IsNoise(s) && OfferMatch(s).Some?
    ensures r.Offer? ==> OfferMatch(s) == Some(r.groups) && Digits(r.groups.price)
  {
    if DecorationLine(s) then Noise(DecorationRule)
    else if DatedTag(s) then Noise(DatedTagRule)
    else if BangWrapped(s) then Noise(BangRule)
    else if Caption(s) then Noise(CaptionRule)
    else if LotSize(s) then Noise(LotSizeRule)
    else match OfferMatch(s)
      case Some(g) => Offer(g)
      case None => NoShape
  }
}

/** Properties of the classifier and worked lines from the price lists. */
module LineFacts {
  import opened Wrappers
  import opened Text
  import opened LineRules

  /** The `‼️…‼️` rule of utils.py:61 can never fire: `‼` (U+203C) and U+FE0F both belong
      to the decoration class of utils.py:57, so such a line is already discarded there. */
  lemma {:induction false} BangRuleIsDeadCode(s: string)
    requires BangWrapped(s)
    ensures DecorationLine(s)
    ensures Classify(s) == Noise(DecorationRule)
  {
    var n := |s|;
    var u := s[2..];
    assert Markers(s[..2]) by { assert s[..2] == Bang; }
    assert MarkersAfterAt(u, n - 4) by {
      assert u[..n - 4] == s[2..n - 2];
      assert u[n - 4..] == s[n - 2..];
    }
    assert MarkerTailAt(u, 0) by { assert u[0..] == u; }
    assert MarkerBracketedAt(s, 2);
    assert DecorationUpTo(s, n) by { assert s[..n] == s; }
    assert DecorationFrom(s, 0) by { assert s[0..] == s; }
  }

  lemma SplitIsAtSpace(s: string, m: int)
    requires OfferSplitAt(s, m)
    ensures IsSpace(s[m])
  {
    var e' :| m < e' < |s| && PriceStartsAt(s, m, e');
    assert s[m..e'][0] == s[m];
  }

  lemma DigitsAt(s: string, i: nat, j: nat)
    requires i <= j <= |s| && Digits(s[i..j])
    ensures forall k :: i <= k < j ==> IsDigit(s[k])
  {
    forall k | i <= k < j ensures IsDigit(s[k]) { assert s[i..j][k - i] == s[k]; }
  }

  /** When nothing after the last white space before the price is white space, the name is
      everything before that white space and the price is the digit run right after it. */
  lemma {:induction false} PriceAfterLastSpace(s: string, n: nat, f: nat)
    requires 1 <= n && n + 1 < f <= |s|
    requires NoNewline(s[..n]) && IsSpace(s[n])
    requires forall k :: n < k < f ==> IsDigit(s[k])
    requires f == |s| || !IsDigit(s[f])
    requires forall k :: n < k < |s| ==> !IsSpace(s[k])
    ensures OfferMatch(s).Some?
    ensures OfferMatch(s).value.name == s[..n]
    ensures OfferMatch(s).value.price == s[n + 1..f]
  {
    assert PriceStartsAt(s, n, n + 1);
    assert OfferSplitAt(s, n);
    var g := OfferMatch(s).value;
    SplitIsAtSpace(s, |g.name|);
    assert |g.name| == n;
    var e := SkipSpaces(s, n);
    assert e == n + 1;
    DigitsAt(s, e, e + |g.price|);
    assert e + |g.price| == f;
  }

  const MidnightLine := "iPhone 13 Pro 128 Midnight 45000"

  lemma MidnightLineName()
    ensures |MidnightLine| == 32 && IsSpace(MidnightLine[26])
    ensures NoNewline(MidnightLine[..26])
    ensures MidnightLine[..26] == "iPhone 13 Pro 128 Midnight"
  {
  }

  lemma MidnightLinePrice()
    ensures forall k :: 26 < k < 32 ==> IsDigit(MidnightLine[k]) && !IsSpace(MidnightLine[k])
    ensures MidnightLine[27..32] == "45000"
  {
  }

  /** "iPhone 13 Pro 128 Midnight 45000": the name ends before the last space, the price is 45000. */
  lemma MidnightOffer()
    ensures OfferMatch(MidnightLine).Some?
    ensures OfferMatch(MidnightLine).value.name == "iPhone 13 Pro 128 Midnight"
    ensures OfferMatch(MidnightLine).value.price == "45000"
  {
    MidnightLineName();
    MidnightLinePrice();
    PriceAfterLastSpace(MidnightLine, 26, 32);
  }
}
