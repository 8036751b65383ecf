/**
 * The colour translation of `translate_color_in_excel` (main.py:12-100): every non-empty
 * cell of the sheet is turned into text and each English colour name of the dictionary at
 * main.py:25-77 is replaced, in the dictionary's order, by its Russian name wherever it
 * occurs as a whole word, ignoring case (main.py:80-87).  The new file name puts `_`
 * around the part before the first dot (main.py:90-92).
 */
module ColorTranslation {
  import opened Wrappers
  import opened Text

  /** The dictionary of main.py:25-77, in insertion order: (English, Russian) */
  const Translations: seq<(string, string)> :=
    TranslationsA + TranslationsB + TranslationsC + TranslationsD + TranslationsE + TranslationsF

  const TranslationsA: seq<(string, string)> := [
    ("black", "черный"),
    ("white", "белый"),
    ("gray", "серый"),
    ("silver", "серебристый"),
    ("gold", "золотой"),
    ("blue", "синий"),
    ("green", "зеленый"),
    ("red", "красный"),
    ("purple", "фиолетовый"),
    ("pink", "розовый")
  ]

  const TranslationsB: seq<(string, string)> := [
    ("midnight", "темная ночь"),
    ("starlight", "сияющая звезда"),
    ("space black", "космический черный"),
    ("deep purple", "темно-фиолетовый"),
    ("alpine green", "альпийский зеленый"),
    ("sierra blue", "небесно-голубой"),
    ("yellow", "желтый"),
    ("graphite", "графитовый"),
    ("lavender", "лавандовый"),
    ("mint", "мятный")
  ]

  const TranslationsC: seq<(string, string)> := [
    ("lilac", "сиреневый"),
    ("lemon", "лимонный"),
    ("obsidian", "обсидиан"),
    ("hazel", "ореховый"),
    ("porcelain", "фарфоровый"),
    ("peony", "пионовый"),
    ("rosequartz", "розовый кварц"),
    ("olive", "оливковый"),
    ("natural", "натуральный"),
    ("tan", "загорелый")
  ]

  const TranslationsD: seq<(string, string)> := [
    ("platinum", "платиновый"),
    ("sky", "небесный"),
    ("denim", "деним"),
    ("cloud", "облачный"),
    ("blush", "румяна"),
    ("ink", "чернила"),
    ("winter blue", "зимний синий"),
    ("sea", "морской"),
    ("charcoal", "угольный"),
    ("lemongrass", "лимонник")
  ]

  const TranslationsE: seq<(string, string)> := [
    ("stormy black", "штормовой черный"),
    ("cloudy white", "облачный белый"),
    ("ocean blue", "океанский синий"),
    ("lime green", "лаймовый зеленый"),
    ("pure platinum", "чистая платина"),
    ("midnight sky", "полуночное небо"),
    ("rose gold", "розовое золото"),
    ("plum", "сливовый"),
    ("teal", "бирюзовый"),
    ("ultramarine", "ультрамариновый")
  ]

  const TranslationsF: seq<(string, string)> := [
    ("desert", "пустынный")
  ]

  // ---------------------------------------------------------------- one substitution

  /**
   * `re.sub(r'\b' + re.escape(w) + r'\b', r, t, flags=re.IGNORECASE)` from position `p`
   * on: the scan goes left to right over the original text, a match is replaced and the
   * scan resumes after it, so matches never overlap and boundaries are those of `t`.
   */
  function SubFrom(t: string, p: nat, w: string, r: string): string
    requires p <= |t| && |w| > 0
    decreases |t| - p
  {
    if p == |t| then ""
    else if WholeWordAt(t, p, w) then r + SubFrom(t, p + |w|, w, r)
    else [t[p]] + SubFrom(t, p + 1, w, r)
  }

  function ReplaceWord(t: string, w: string, r: string): string
    requires |w| > 0
  {
    SubFrom(t, 0, w, r)
  }

  /** No whole-word occurrence of `w` at or after `p` */
  predicate NoneFrom(t: string, p: nat, w: string) {
    forall q :: p <= q < |t| ==> !WholeWordAt(t, q, w)
  }

  /** Without an occurrence, the substitution leaves the text as it is. */
  lemma {:induction false} SubFromNone(t: string, p: nat, w: string, r: string)
    requires p <= |t| && |w| > 0 && NoneFrom(t, p, w)
    ensures SubFrom(t, p, w, r) == t[p..]
    decreases |t| - p
  {
    if p < |t| {
      SubFromNone(t, p + 1, w, r);
      assert t[p..] == [t[p]] + t[p + 1..];
    }
  }

  /** Text before the first occurrence is kept, the occurrence becomes `r`, and the scan goes on after it. */
  lemma {:induction false} SubFromFirst(t: string, p: nat, q: nat, w: string, r: string)
    requires p <= q && |w| > 0 && WholeWordAt(t, q, w)
    requires forall k :: p <= k < q ==> !WholeWordAt(t, k, w)
    ensures SubFrom(t, p, w, r) == t[p..q] + r + SubFrom(t, q + |w|, w, r)
    decreases q - p
  {
    if p < q {
      SubFromFirst(t, p + 1, q, w, r);
      assert t[p..q] == [t[p]] + t[p + 1..q];
    }
  }

  // ---------------------------------------------------------------- the whole dictionary

  /** The substitutions of `table` applied one after another, first entry first */
  function Translate(t: string, table: seq<(string, string)>): string
    requires forall i :: 0 <= i < |table| ==> |table[i].0| > 0
    decreases |table|
  {
    if |table| == 0 then t else Translate(ReplaceWord(t, table[0].0, table[0].1), table[1..])
  }

  /** An entry none of whose names occurs in the text leaves the text as it is. */
  lemma {:induction false} TranslateNone(t: string, table: seq<(string, string)>)
    requires forall i :: 0 <= i < |table| ==> |table[i].0| > 0 && NoneFrom(t, 0, table[i].0)
    ensures Translate(t, table) == t
    decreases |table|
  {
    if |table| > 0 {
      SubFromNone(t, 0, table[0].0, table[0].1);
      TranslateNone(t, table[1..]);
    }
  }

  /** Every English name is non-empty, so each substitution is well defined. */
  predicate NonEmptyKeys(table: seq<(string, string)>) {
    forall i :: 0 <= i < |table| ==> |table[i].0| > 0
  }

  lemma TranslationKeys()
    ensures NonEmptyKeys(Translations)
  {
    TranslationNames();
  }

  /** The text of one cell after the loop at main.py:84-87, over the dictionary `table` */
  method TranslateText(t: string, table: seq<(string, string)>) returns (text: string)
    requires NonEmptyKeys(table)
    ensures text == Translate(t, table)
  {
    text := t;
    for i := 0 to |table|
      invariant Translate(text, table[i..]) == Translate(t, table)
    {
      var (english, russian) := table[i];
      assert table[i..] == [table[i]] + table[i + 1..];
      text := ReplaceWord(text, english, russian);
    }
  }

  // ---------------------------------------------------------------- an earlier word pre-empts a phrase

  predicate IsAsciiLower(c: char) { 'a' <= c <= 'z' }

  /** A lower-case English name: ASCII letters and spaces, a letter at both ends */
  predicate EnglishName(w: string) {
    |w| > 0 && IsAsciiLower(w[0]) && IsAsciiLower(w[|w| - 1])
    && forall k :: 0 <= k < |w| ==> IsAsciiLower(w[k]) || w[k] == ' '
  }

  /** Every English name of `table` is lower case, and none is "space". */
  predicate LowerCaseNames(table: seq<(string, string)>) {
    forall i :: 0 <= i < |table| ==> EnglishName(table[i].0) && table[i].0 != "space"
  }

  lemma LowerCaseNamesJoin(a: seq<(string, string)>, b: seq<(string, string)>)
    requires LowerCaseNames(a) && LowerCaseNames(b)
    ensures LowerCaseNames(a + b)
  {
    forall i | 0 <= i < |a + b|
      ensures EnglishName((a + b)[i].0) && (a + b)[i].0 != "space"
    {
      if i >= |a| {
        assert (a + b)[i] == b[i - |a|];
      }
    }
  }

  lemma TranslationsANames()
    ensures LowerCaseNames(TranslationsA)
  {
  }

  lemma TranslationsBNames()
    ensures LowerCaseNames(TranslationsB)
  {
    TranslationsBHeadNames();
    TranslationsBTailNames();
    LowerCaseNamesJoin(TranslationsB[..5], TranslationsB[5..]);
    assert TranslationsB == TranslationsB[..5] + TranslationsB[5..];
  }

  lemma TranslationsBHeadNames()
    ensures LowerCaseNames(TranslationsB[..5])
  {
  }

  lemma TranslationsBTailNames()
    ensures LowerCaseNames(TranslationsB[5..])
  {
  }

  lemma TranslationsCNames()
    ensures LowerCaseNames(TranslationsC)
  {
  }

  lemma TranslationsDNames()
    ensures LowerCaseNames(TranslationsD)
  {
  }

  lemma TranslationsENames()
    ensures LowerCaseNames(TranslationsE)
  {
    TranslationsEHeadNames();
    TranslationsETailNames();
    LowerCaseNamesJoin(TranslationsE[..5], TranslationsE[5..]);
    assert TranslationsE == TranslationsE[..5] + TranslationsE[5..];
  }

  lemma TranslationsEHeadNames()
    ensures LowerCaseNames(TranslationsE[..5])
  {
  }

  lemma TranslationsETailNames()
    ensures LowerCaseNames(TranslationsE[5..])
  {
  }

  lemma TranslationsFNames()
    ensures LowerCaseNames(TranslationsF)
  {
  }

  lemma TranslationNames()
    ensures Translations[0] == ("black", "черный")
    ensures LowerCaseNames(Translations)
  {
    TranslationsANames();
    TranslationsBNames();
    TranslationsCNames();
    TranslationsDNames();
    TranslationsENames();
    TranslationsFNames();
    LowerCaseNamesJoin(TranslationsA, TranslationsB);
    LowerCaseNamesJoin(TranslationsA + TranslationsB, TranslationsC);
    LowerCaseNamesJoin(TranslationsA + TranslationsB + TranslationsC, TranslationsD);
    LowerCaseNamesJoin(TranslationsA + TranslationsB + TranslationsC + TranslationsD, TranslationsE);
    LowerCaseNamesJoin(TranslationsA + TranslationsB + TranslationsC + TranslationsD + TranslationsE, TranslationsF);
  }

  const SpaceBlackText := "Space Black"
  const SpaceChernyText := "Space черный"

  /** The first entry, "black", turns "Space Black" into "Space черный". */
  lemma BlackReplaced(t: string)
    requires t == SpaceBlackText
    ensures ReplaceWord(t, "black", "черный") == SpaceChernyText
  {
    forall k | 0 <= k < 6
      ensures !WholeWordAt(t, k, "black")
    {
      assert Lower(t[k]) != 'b';
    }
    assert CiMatch(t, 6, "black");
    SubFromFirst(t, 0, 6, "black", "черный");
  }

  /** In "Space черный" the only English name that occurs as a whole word is "space". */
  lemma OnlySpaceOccurs(u: string, w: string, p: int)
    requires u == SpaceChernyText && EnglishName(w)
    ensures WholeWordAt(u, p, w) ==> w == "space"
  {
    if WholeWordAt(u, p, w) {
      CiMatchFromAll(u, p, w, 0);
      assert forall k :: 6 <= k < |u| ==> IsCyrillicLetter(u[k]);
      assert Lower(u[p]) == w[0];
      assert p == 0;
      assert Lower(u[|w| - 1]) == w[|w| - 1];
      assert |w| == 5;
      assert forall k :: 0 <= k < 5 ==> w[k] == Lower(u[k]);
    }
  }

  /**
   * "Space Black" becomes "Space черный": "black" comes first in the dictionary, so in
   * this text the entry "space black" finds no phrase to replace.
   */
  lemma SpaceBlackTranslation(t: string)
    requires t == SpaceBlackText
    ensures Translate(t, Translations) == SpaceChernyText
  {
    TranslationNames();
    TranslationKeys();
    BlackReplaced(t);
    var u := SpaceChernyText;
    var rest := Translations[1..];
    assert Translate(t, Translations) == Translate(u, rest);
    forall i | 0 <= i < |rest|
      ensures |rest[i].0| > 0 && NoneFrom(u, 0, rest[i].0)
    {
      forall q | 0 <= q < |u|
        ensures !WholeWordAt(u, q, rest[i].0)
      {
        OnlySpaceOccurs(u, rest[i].0, q);
      }
    }
    TranslateNone(u, rest);
  }

  // ---------------------------------------------------------------- the sheet

  /** A cell after main.py:82-89: an empty cell stays empty, any other becomes translated text. */
  function TranslatedCell(c: Option<Cell>): Option<Cell>
  {
    match c
    case None => None
    case Some(v) => Some(Text(Translate(CellText(v), Translations)))
  }

  /** The loops of main.py:80-89 over the active sheet, which is updated in place */
  method TranslateSheet(sheet: array2<Option<Cell>>)
    modifies sheet
    ensures forall i, j :: 0 <= i < sheet.Length0 && 0 <= j < sheet.Length1 ==>
      sheet[i, j] == TranslatedCell(old(sheet[i, j]))
  {
    TranslationKeys();
    for r := 0 to sheet.Length0
      invariant forall i, j :: 0 <= i < r && 0 <= j < sheet.Length1 ==>
        sheet[i, j] == TranslatedCell(old(sheet[i, j]))
      invariant forall i, j :: r <= i < sheet.Length0 && 0 <= j < sheet.Length1 ==>
        sheet[i, j] == old(sheet[i, j])
    {
      for c := 0 to sheet.Length1
        invariant forall i, j :: 0 <= i < r && 0 <= j < sheet.Length1 ==>
          sheet[i, j] == TranslatedCell(old(sheet[i, j]))
        invariant forall j :: 0 <= j < c ==> sheet[r, j] == TranslatedCell(old(sheet[r, j]))
        invariant forall i, j :: 0 <= i < sheet.Length0 && 0 <= j < sheet.Length1 && (i > r || (i == r && j >= c)) ==>
          sheet[i, j] == old(sheet[i, j])
      {
        var value := sheet[r, c];
        if value.Some? {
          var text := TranslateText(CellText(value.value), Translations);
          sheet[r, c] := Some(Text(text));
        }
      }
    }
  }

  // ---------------------------------------------------------------- the new file name

  /** The first position of `c` in `s`, or `|s|` */
  function FirstIndexOf(s: string, c: char): (i: nat)
    ensures i <= |s|
    ensures forall k :: 0 <= k < i ==> s[k] != c
    ensures i < |s| ==> s[i] == c
  {
    if |s| == 0 then 0 else if s[0] == c then 0 else 1 + FirstIndexOf(s[1..], c)
  }

  /** `s.split(sep)` */
  function Split(s: string, sep: char): (parts: seq<string>)
    ensures |parts| >= 1
    decreases |s|
  {
    var i := FirstIndexOf(s, sep);
    if i == |s| then [s] else [s[..i]] + Split(s[i + 1..], sep)
  }

  /** `sep.join(parts)` */
  function Join(parts: seq<string>, sep: char): string
  {
    if |parts| == 0 then ""
    else if |parts| == 1 then parts[0]
    else parts[0] + [sep] + Join(parts[1..], sep)
  }

  /** Joining the pieces of a split gives back the string. */
  lemma {:induction false} JoinSplit(s: string, sep: char)
    ensures Join(Split(s, sep), sep) == s
    decreases |s|
  {
    var i := FirstIndexOf(s, sep);
    if i < |s| {
      JoinSplit(s[i + 1..], sep);
      assert s == s[..i] + [sep] + s[i + 1..];
    }
  }

  /** Splitting a join of pieces that do not hold the separator gives back the pieces. */
  lemma {:induction false} SplitJoin(parts: seq<string>, sep: char)
    requires |parts| >= 1
    requires forall i :: 0 <= i < |parts| ==> sep !in parts[i]
    ensures Split(Join(parts, sep), sep) == parts
  {
    var s := Join(parts, sep);
    var p := parts[0];
    if |parts| == 1 {
      assert FirstIndexOf(s, sep) == |p|;
    } else {
      var rest := Join(parts[1..], sep);
      assert s == p + [sep] + rest;
      assert s[|p|] == sep;
      assert FirstIndexOf(s, sep) == |p|;
      assert s[..|p|] == p && s[|p| + 1..] == rest;
      SplitJoin(parts[1..], sep);
    }
  }

  /** main.py:90-92: `_` is put before the path and before its first dot. */
  function NewFilePath(path: string): string
  {
    var parts := Split(path, '.');
    Join(["_" + parts[0] + "_"] + parts[1..], '.')
  }

  lemma JoinHead(head: string, rest: seq<string>, sep: char)
    requires |rest| >= 1
    ensures Join([head] + rest, sep) == head + [sep] + Join(rest, sep)
  {
    var parts := [head] + rest;
    assert parts[0] == head && parts[1..] == rest;
  }

  /** The new path is the old one with `_` added at the start and just before the first dot. */
  lemma NewFilePathShape(path: string)
    ensures var i := FirstIndexOf(path, '.');
      NewFilePath(path) == "_" + path[..i] + "_" + path[i..]
  {
    var i := FirstIndexOf(path, '.');
    if i < |path| {
      NewFilePathDot(path, i);
    } else {
      assert Split(path, '.') == [path];
      assert path[..i] == path && path[i..] == [];
    }
  }

  lemma NewFilePathDot(path: string, i: nat)
    requires i < |path| && i == FirstIndexOf(path, '.')
    ensures NewFilePath(path) == "_" + path[..i] + "_" + path[i..]
  {
    var head := "_" + path[..i] + "_";
    var tail := path[i + 1..];
    SplitAtDot(path, i);
    JoinSplit(tail, '.');
    JoinHead(head, Split(tail, '.'), '.');
    DotTail(head, path, i);
  }

  /** Splitting at the first dot: the piece before it, then the pieces of the rest */
  lemma SplitAtDot(path: string, i: nat)
    requires i < |path| && i == FirstIndexOf(path, '.')
    ensures Split(path, '.')[0] == path[..i]
    ensures Split(path, '.')[1..] == Split(path[i + 1..], '.')
  {
    var parts := Split(path, '.');
    assert parts == [path[..i]] + Split(path[i + 1..], '.');
  }

  lemma DotTail(head: string, path: string, i: nat)
    requires i < |path| && path[i] == '.'
    ensures head + ['.'] + path[i + 1..] == head + path[i..]
  {
    assert path[i..] == ['.'] + path[i + 1..];
  }

  /** The same, given where the first dot is */
  lemma NewFilePathAt(path: string, i: nat)
    requires i <= |path| && (i < |path| ==> path[i] == '.')
    requires forall k :: 0 <= k < i ==> path[k] != '.'
    ensures NewFilePath(path) == "_" + path[..i] + "_" + path[i..]
  {
    NewFilePathShape(path);
    assert FirstIndexOf(path, '.') == i;
  }

  lemma PriceListDot(path: string)
    requires path == "Прайсы с телеграма 28.01.xlsx"
    ensures |path| > 21 && path[21] == '.' && forall k :: 0 <= k < 21 ==> path[k] != '.'
    ensures "_" + path[..21] + "_" + path[21..] == "_Прайсы с телеграма 28_.01.xlsx"
  {
    assert path[..21] == "Прайсы с телеграма 28" && path[21..] == ".01.xlsx";
  }

  /** The name asked for at main.py:318 keeps its date dot: "_Прайсы с телеграма 28_.01.xlsx" */
  lemma PriceListFileName(path: string)
    requires path == "Прайсы с телеграма 28.01.xlsx"
    ensures NewFilePath(path) == "_Прайсы с телеграма 28_.01.xlsx"
  {
    PriceListDot(path);
    NewFilePathAt(path, 21);
  }

  lemma ShortFileName(path: string)
    requires path == "a.b.xlsx"
    ensures NewFilePath(path) == "_a_.b.xlsx"
  {
    NewFilePathShape(path);
    assert FirstIndexOf(path, '.') == 1;
  }
}
