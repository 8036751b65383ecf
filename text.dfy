/**
 * Characters, cells and the few string operations of Python that the core relies on:
 * the regex classes `\d`, `\s`, `\w`, the word boundary `\b`, `str.strip()`,
 * `str.lower()` / `re.IGNORECASE`, `str()` of a cell value and `int()` of a digit run.
 *
 * Python's classes are defined over all of Unicode; the predicates below cover ASCII,
 * the Unicode white space that `str.isspace()` accepts, and the Cyrillic alphabet the
 * price lists are written in.
 */
module Text {
  import opened Wrappers

  // ---------------------------------------------------------------- character classes

  /** `\d` (ASCII digits only) */
  predicate IsDigit(c: char) { '0' <= c <= '9' }

  predicate IsAsciiLetter(c: char) { 'A' <= c <= 'Z' || 'a' <= c <= 'z' }

  /** The Russian alphabet: А..я plus Ё and ё */
  predicate IsCyrillicLetter(c: char) { 'А' <= c <= 'я' || c == 'Ё' || c == 'ё' }

  /** `\w`: letters, digits and the underscore */
  predicate IsWord(c: char) { IsDigit(c) || IsAsciiLetter(c) || IsCyrillicLetter(c) || c == '_' }

  /** `\s`, which for `str` patterns is the set `str.isspace()` accepts */
  predicate IsSpace(c: char) {
    c == ' ' || '\t' <= c <= '\r' || '\U{1C}' <= c <= '\U{1F}' || c == '\U{85}' || c == '\U{A0}'
    || c == '\U{1680}' || '\U{2000}' <= c <= '\U{200A}' || c == '\U{2028}' || c == '\U{2029}'
    || c == '\U{202F}' || c == '\U{205F}' || c == '\U{3000}'
  }

  lemma SpaceIsNotWord(c: char)
    ensures IsSpace(c) ==> !IsWord(c) && !IsDigit(c)
  {
  }

  // ---------------------------------------------------------------- case folding

  /** Lower-case mapping of `str.lower()` on the alphabets above; other characters are kept. */
  function Lower(c: char): (l: char)
    ensures IsWord(l) <==> IsWord(c)
    ensures IsSpace(l) <==> IsSpace(c)
  {
    if 'A' <= c <= 'Z' then (c as int + 32) as char
    else if 'А' <= c <= 'Я' then (c as int + 32) as char
    else if c == 'Ё' then 'ё'
    else c
  }

  /** Lower-casing a lower-case character changes nothing. */
  lemma LowerIdempotent(c: char)
    ensures Lower(Lower(c)) == Lower(c)
  {
  }

  /**
   * `s.lower()`: position by position it keeps word characters and white space where they
   * were, and lower-casing the result again changes nothing.
   */
  function LowerStr(s: string): (r: string)
    ensures |r| == |s|
    ensures forall k :: 0 <= k < |s| ==> r[k] == Lower(s[k])
    ensures forall k :: 0 <= k < |s| ==> (IsWord(r[k]) <==> IsWord(s[k])) && (IsSpace(r[k]) <==> IsSpace(s[k]))
    ensures forall k :: 0 <= k < |s| ==> Lower(r[k]) == r[k]
  {
    var r := seq(|s|, k requires 0 <= k < |s| => Lower(s[k]));
    forall k | 0 <= k < |s| ensures Lower(r[k]) == r[k] {
      LowerIdempotent(s[k]);
    }
    r
  }

  /** `s.lower().lower() == s.lower()` */
  lemma {:induction false} LowerStrIdempotent(s: string)
    ensures LowerStr(LowerStr(s)) == LowerStr(s)
  {
    var r := LowerStr(s);
    assert forall k :: 0 <= k < |r| ==> LowerStr(r)[k] == r[k];
  }

  /** `t[p..p+|w|]` equals `w` under `re.IGNORECASE`, compared from offset `k` on. */
  predicate CiMatchFrom(t: string, p: nat, w: string, k: nat)
    requires p + |w| <= |t| && k <= |w|
    decreases |w| - k
  {
    k == |w| || (Lower(t[p + k]) == Lower(w[k]) && CiMatchFrom(t, p, w, k + 1))
  }

  predicate CiMatch(t: string, p: nat, w: string)
    requires p + |w| <= |t|
  {
    CiMatchFrom(t, p, w, 0)
  }

  lemma {:induction false} CiMatchFromAll(t: string, p: nat, w: string, k: nat)
    requires p + |w| <= |t| && k <= |w|
    ensures CiMatchFrom(t, p, w, k) <==> forall j :: k <= j < |w| ==> Lower(t[p + j]) == Lower(w[j])
    decreases |w| - k
  {
    if k < |w| {
      CiMatchFromAll(t, p, w, k + 1);
    }
  }

  /** A case-insensitive match means the lower-cased text is the lower-cased word. */
  lemma CiMatchLower(t: string, p: nat, w: string)
    requires p + |w| <= |t|
    ensures CiMatch(t, p, w) <==> LowerStr(t[p..p + |w|]) == LowerStr(w)
  {
    CiMatchFromAll(t, p, w, 0);
    if LowerStr(t[p..p + |w|]) == LowerStr(w) {
      forall j | 0 <= j < |w| ensures Lower(t[p + j]) == Lower(w[j]) {
        assert LowerStr(t[p..p + |w|])[j] == LowerStr(w)[j];
      }
    }
  }

  // ---------------------------------------------------------------- word boundary

  predicate WordAt(t: string, i: int) { 0 <= i < |t| && IsWord(t[i]) }

  /** `\b` at position `i` of `t`: a word character on exactly one side */
  predicate Boundary(t: string, i: int) { WordAt(t, i - 1) != WordAt(t, i) }

  /** `\bw\b` matches `t` at `p` under `re.IGNORECASE`. */
  predicate WholeWordAt(t: string, p: int, w: string) {
    0 <= p && p + |w| <= |t| && Boundary(t, p) && CiMatch(t, p, w) && Boundary(t, p + |w|)
  }

  // ---------------------------------------------------------------- strip

  /** The first index at or after `i` that does not hold white space (or |s|). */
  function SkipSpaces(s: string, i: nat): (j: nat)
    requires i <= |s|
    ensures i <= j <= |s|
    ensures forall k :: i <= k < j ==> IsSpace(s[k])
    ensures j < |s| ==> !IsSpace(s[j])
    decreases |s| - i
  {
    if i == |s| || !IsSpace(s[i]) then i else SkipSpaces(s, i + 1)
  }

  /** The end of `s[..j]` once trailing white space is removed, not going below `lo`. */
  function TrimEnd(s: string, lo: nat, j: nat): (e: nat)
    requires lo <= j <= |s|
    ensures lo <= e <= j
    ensures forall k :: e <= k < j ==> IsSpace(s[k])
    ensures e > lo ==> !IsSpace(s[e - 1])
    decreases j
  {
    if j == lo || !IsSpace(s[j - 1]) then j else TrimEnd(s, lo, j - 1)
  }

  /** `s.strip()`: white space removed at both ends */
  function Strip(s: string): (r: string)
    ensures |r| == 0 <==> forall k :: 0 <= k < |s| ==> IsSpace(s[k])
    ensures |r| > 0 ==> !IsSpace(r[0]) && !IsSpace(r[|r| - 1])
    ensures forall k :: 0 <= k < SkipSpaces(s, 0) ==> IsSpace(s[k])
    ensures r <= s[SkipSpaces(s, 0)..]
    ensures forall k :: SkipSpaces(s, 0) + |r| <= k < |s| ==> IsSpace(s[k])
  {
    var a := SkipSpaces(s, 0);
    var b := TrimEnd(s, a, |s|);
    s[a..b]
  }

  // ---------------------------------------------------------------- cells

  /** The value of a spreadsheet cell; an empty cell is `None`. */
  datatype Cell = Text(s: string) | Number(n: int)

  /** Python truthiness of a cell value: empty string, zero and `None` are false. */
  predicate Truthy(c: Option<Cell>) {
    match c
    case None => false
    case Some(Text(s)) => s != ""
    case Some(Number(n)) => n != 0
  }

  function DigitChar(d: nat): (c: char)
    requires d < 10
    ensures IsDigit(c)
  {
    ['0', '1', '2', '3', '4', '5', '6', '7', '8', '9'][d]
  }

  /** `str(n)` for a natural number */
  function NatToDecimal(n: nat): (r: string)
    ensures |r| > 0
    ensures forall k :: 0 <= k < |r| ==> IsDigit(r[k])
  {
    if n < 10 then [DigitChar(n)] else NatToDecimal(n / 10) + [DigitChar(n % 10)]
  }

  /** `str(n)` for an integer */
  function IntToDecimal(n: int): (r: string)
    ensures |r| > 0
    ensures forall k :: 0 <= k < |r| ==> IsDigit(r[k]) || r[k] == '-'
  {
    if n < 0 then "-" + NatToDecimal(-n) else NatToDecimal(n)
  }

  /** `str(value)` of a cell */
  function CellText(c: Cell): string {
    match c
    case Text(s) => s
    case Number(n) => IntToDecimal(n)
  }

  // ---------------------------------------------------------------- int()

  function DigitValue(c: char): nat
    requires IsDigit(c)
  {
    c as int - '0' as int
  }

  /** `int(ds)` for a run of decimal digits */
  function DigitsValue(ds: string): nat
    requires forall k :: 0 <= k < |ds| ==> IsDigit(ds[k])
  {
    if |ds| == 0 then 0 else DigitsValue(ds[..|ds| - 1]) * 10 + DigitValue(ds[|ds| - 1])
  }
}
