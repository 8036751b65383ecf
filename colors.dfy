/**
 * `extract_color_from_string` (main.py:156-167): `re.findall` of a whole-word,
 * case-insensitive alternation of 101 colour names, of which the first match is returned
 * lower-cased.
 *
 * The regex engine tries the start positions from left to right and, at each, the
 * alternatives in the order they are written; the first alternative that matches with a
 * word boundary on both sides is taken.  `FirstMatch` is that search, characterised by
 * its contract (leftmost position, then earliest alternative).
 */
module ColorNames {
  import opened Wrappers
  import opened Text

  /** The alternatives of main.py:164, in the order written, ten to a line */
  const Colors: seq<string> :=
    ["Black", "White", "Gray", "Silver", "Gold", "Blue", "Green", "Red", "Purple", "Pink"]
    + ["Midnight", "Starlight", "Space Black", "Deep Purple", "Alpine Green", "Sierra Blue", "Yellow", "Graphite", "Lavender", "Mint"]
    + ["Lilac", "Lemon", "Obsidian", "Hazel", "Porcelain", "Peony", "Rose Quartz", "Olive", "Natural", "Tan"]
    + ["Platinum", "Sky", "Denim", "Cloud", "Blush", "Ink", "Winter Blue", "Sea", "Charcoal", "Lemongrass"]
    + ["Stormy Black", "Cloudy White", "Ocean Blue", "Lime Green", "Pure Platinum", "Midnight Sky", "Rose Gold", "Plum", "Teal", "Ultramarine"]
    + ["Desert", "черный", "белый", "серый", "серебристый", "золотой", "синий", "зеленый", "красный", "фиолетовый"]
    + ["розовый", "темная ночь", "сияющая звезда", "космический черный", "темно-фиолетовый", "альпийский зеленый", "небесно-голубой", "желтый", "графитовый", "лавандовый"]
    + ["мятный", "лимонный", "обсидиан", "ореховый", "фарфоровый", "пионовый", "розовый кварц", "оливковый", "натуральный", "загорелый"]
    + ["платиновый", "небесный", "деним", "облачный", "румяна", "чернила", "зимний синий", "морской", "угольный", "лимонник"]
    + ["штормовой черный", "облачный белый", "океанский синий", "лаймовый зеленый", "чистая платина", "полуночное небо", "розовое золото", "сливовый", "бирюзовый", "ультрамариновый"]
    + ["пустынный"]

  /** Where the first match starts and which alternative produced it */
  datatype ColorMatch = ColorMatch(pos: nat, alt: nat)

  /** The first alternative of `vocab`, at index `k` or later, that matches at `p` */
  function AltFrom(t: string, p: nat, vocab: seq<string>, k: nat): (r: Option<nat>)
    requires k <= |vocab|
    ensures r.Some? ==> k <= r.value < |vocab| && WholeWordAt(t, p, vocab[r.value])
    ensures r.Some? ==> forall i :: k <= i < r.value ==> !WholeWordAt(t, p, vocab[i])
    ensures r.None? ==> forall i :: k <= i < |vocab| ==> !WholeWordAt(t, p, vocab[i])
    decreases |vocab| - k
  {
    if k == |vocab| then None
    else if WholeWordAt(t, p, vocab[k]) then Some(k)
    else AltFrom(t, p, vocab, k + 1)
  }

  /** No alternative matches at `q`. */
  predicate NoneAt(t: string, q: int, vocab: seq<string>) {
    forall i :: 0 <= i < |vocab| ==> !WholeWordAt(t, q, vocab[i])
  }

  /** The first position at or after `p` where some alternative matches */
  function MatchFrom(t: string, p: nat, vocab: seq<string>): (r: Option<ColorMatch>)
    requires p <= |t|
    ensures r.Some? ==> p <= r.value.pos && r.value.alt < |vocab|
    ensures r.Some? ==> WholeWordAt(t, r.value.pos, vocab[r.value.alt])
    ensures r.Some? ==> forall i :: 0 <= i < r.value.alt ==> !WholeWordAt(t, r.value.pos, vocab[i])
    ensures r.Some? ==> forall q :: p <= q < r.value.pos ==> NoneAt(t, q, vocab)
    ensures r.None? ==> forall q :: p <= q ==> NoneAt(t, q, vocab)
    decreases |t| - p
  {
    match AltFrom(t, p, vocab, 0)
    case Some(i) => Some(ColorMatch(p, i))
    case None => if p == |t| then None else MatchFrom(t, p + 1, vocab)
  }

  /** `re.findall(r'\b(…)\b', text, re.IGNORECASE)[0]` for the alternation `vocab`, as a
      position and an alternative: the leftmost position, and there the earliest alternative. */
  function FirstMatch(t: string, vocab: seq<string>): (r: Option<ColorMatch>)
    ensures r.None? <==> forall q :: NoneAt(t, q, vocab)
    ensures r.Some? ==> r.value.alt < |vocab| && WholeWordAt(t, r.value.pos, vocab[r.value.alt])
    ensures r.Some? ==> forall q :: q < r.value.pos ==> NoneAt(t, q, vocab)
    ensures r.Some? ==> forall i :: 0 <= i < r.value.alt ==> !WholeWordAt(t, r.value.pos, vocab[i])
  {
    var r := MatchFrom(t, 0, vocab);
    if r.None? then
      assert forall q :: NoneAt(t, q, vocab) by {
        forall q ensures NoneAt(t, q, vocab) {
          if q < 0 {
            forall i | 0 <= i < |vocab| ensures !WholeWordAt(t, q, vocab[i]) { }
          }
        }
      }
      r
    else
      assert !NoneAt(t, r.value.pos, vocab);
      assert forall q :: q < 0 ==> NoneAt(t, q, vocab);
      r
  }

  /** The text of the first match, lower-cased, or `None` */
  function FirstWord(t: string, vocab: seq<string>): (r: Option<string>)
    ensures r.None? <==> forall q :: NoneAt(t, q, vocab)
    ensures r.Some? ==> FirstMatch(t, vocab).Some?
    ensures r.Some? ==> r.value == LowerStr(vocab[FirstMatch(t, vocab).value.alt])
  {
    match FirstMatch(t, vocab)
    case None => None
    case Some(m) =>
      CiMatchLower(t, m.pos, vocab[m.alt]);
      Some(LowerStr(t[m.pos..m.pos + |vocab[m.alt]|]))
  }

  /** `extract_color_from_string` (main.py:164-167) */
  function ExtractColor(t: string): Option<string> {
    FirstWord(t, Colors)
  }
}

/** Worked inputs and the alternatives the ordering makes unreachable. */
module ColorFacts {
  import opened Wrappers
  import opened Text
  import opened ColorNames

  /** When alternative `k` matches at the very start and no earlier alternative does, it
      is the one reported. */
  lemma ReportedAtStart(t: string, k: nat)
    requires k < |Colors| && WholeWordAt(t, 0, Colors[k])
    requires forall i :: 0 <= i < k ==> !WholeWordAt(t, 0, Colors[i])
    ensures ExtractColor(t) == Some(LowerStr(Colors[k]))
  {
    var m := FirstMatch(t, Colors).value;
    assert m.pos == 0 by {
      assert !NoneAt(t, 0, Colors);
    }
  }

  const MidnightSky := "Midnight Sky"

  lemma MidnightSkyLeadsWithMidnight()
    ensures Colors[10] == "Midnight"
    ensures WholeWordAt(MidnightSky, 0, "Midnight")
  {
  }

  lemma MidnightLower()
    ensures LowerStr("Midnight") == "midnight"
  {
  }

  lemma MidnightSkyNoEarlier()
    ensures forall i :: 0 <= i < 10 ==> !WholeWordAt(MidnightSky, 0, Colors[i])
  {
  }

  /** "Midnight Sky" is reported as "midnight": `Midnight` is listed before `Midnight Sky`
      and matches at the same position. */
  lemma MidnightSkyGivesMidnight(t: string)
    requires t == MidnightSky
    ensures ExtractColor(t) == Some("midnight")
  {
    MidnightSkyLeadsWithMidnight();
    MidnightSkyNoEarlier();
    ReportedAtStart(t, 10);
    MidnightLower();
  }

  const MidnightBlack := "Midnight Black"

  lemma MidnightBlackNoEarlier()
    ensures forall i :: 0 <= i < 5 ==> !WholeWordAt(MidnightBlack, 0, Colors[i])
  {
  }

  lemma MidnightBlackNoEarlier2()
    ensures forall i :: 5 <= i < 10 ==> !WholeWordAt(MidnightBlack, 0, Colors[i])
  {
  }

  lemma MidnightBlackStarts()
    ensures WholeWordAt(MidnightBlack, 0, "Midnight")
  {
  }

  /** The leftmost match wins over the order of the list: "Midnight Black" gives
      "midnight" although `Black` is listed first. */
  lemma LeftmostBeatsListOrder(t: string)
    requires t == MidnightBlack
    ensures ExtractColor(t) == Some("midnight")
  {
    MidnightBlackNoEarlier();
    MidnightBlackNoEarlier2();
    MidnightBlackStarts();
    MidnightSkyLeadsWithMidnight();
    ReportedAtStart(t, 10);
    MidnightLower();
  }

  const SpaceBlack256 := "Space Black 256"

  lemma SpaceBlackNoEarlier()
    ensures forall i :: 0 <= i < 4 ==> !WholeWordAt(SpaceBlack256, 0, Colors[i])
  {
  }

  lemma SpaceBlackNoEarlier1()
    ensures forall i :: 4 <= i < 8 ==> !WholeWordAt(SpaceBlack256, 0, Colors[i])
  {
  }

  lemma SpaceBlackNoEarlier2()
    ensures forall i :: 8 <= i < 12 ==> !WholeWordAt(SpaceBlack256, 0, Colors[i])
  {
  }

  lemma SpaceBlackStarts()
    ensures Colors[12] == "Space Black"
    ensures WholeWordAt(SpaceBlack256, 0, Colors[12])
    ensures LowerStr("Space Black") == "space black"
  {
  }

  /** "Space Black 256" gives "space black", not "black". */
  lemma SpaceBlackIsOneColor(t: string)
    requires t == SpaceBlack256
    ensures ExtractColor(t) == Some("space black")
  {
    SpaceBlackNoEarlier();
    SpaceBlackNoEarlier1();
    SpaceBlackNoEarlier2();
    SpaceBlackStarts();
    ReportedAtStart(t, 12);
  }

  /** A phrase that matches also lets each of its leading words match on their own, as long
      as the cut falls between a word character and a non-word character. */
  lemma LeadingWordMatches(t: string, p: int, w: string, n: nat)
    requires WholeWordAt(t, p, w)
    requires 0 < n < |w| && IsWord(w[n - 1]) && !IsWord(w[n])
    ensures WholeWordAt(t, p, w[..n])
  {
    CiMatchFromAll(t, p, w, 0);
    CiMatchFromAll(t, p, w[..n], 0);
    assert Lower(t[p + n - 1]) == Lower(w[n - 1]);
    assert Lower(t[p + n]) == Lower(w[n]);
  }

  /** An alternative that starts with an earlier, shorter one is never reported. */
  lemma Shadowed(t: string, short: nat, long: nat, n: nat)
    requires FirstMatch(t, Colors).Some?
    requires short < long < |Colors| && 0 < n < |Colors[long]|
    requires Colors[short] == Colors[long][..n] && IsWord(Colors[long][n - 1]) && !IsWord(Colors[long][n])
    ensures FirstMatch(t, Colors).value.alt != long
  {
    var m := FirstMatch(t, Colors).value;
    if m.alt == long {
      LeadingWordMatches(t, m.pos, Colors[long], n);
    }
  }

  /** `Midnight Sky` is shadowed by `Midnight`. */
  lemma MidnightSkyNeverReported(t: string)
    requires FirstMatch(t, Colors).Some?
    ensures FirstMatch(t, Colors).value.alt != 45
  {
    assert Colors[10] == Colors[45][..8] && IsWord(Colors[45][7]) && !IsWord(Colors[45][8]);
    Shadowed(t, 10, 45, 8);
  }

  /** `розовый кварц` is shadowed by `розовый`. */
  lemma RoseQuartzNeverReported(t: string)
    requires FirstMatch(t, Colors).Some?
    ensures FirstMatch(t, Colors).value.alt != 76
  {
    assert Colors[60] == Colors[76][..7] && IsWord(Colors[76][6]) && !IsWord(Colors[76][7]);
    Shadowed(t, 60, 76, 7);
  }

  /** `облачный белый` is shadowed by `облачный`. */
  lemma CloudyWhiteNeverReported(t: string)
    requires FirstMatch(t, Colors).Some?
    ensures FirstMatch(t, Colors).value.alt != 91
  {
    assert Colors[83] == Colors[91][..8] && IsWord(Colors[91][7]) && !IsWord(Colors[91][8]);
    Shadowed(t, 83, 91, 8);
  }
}
