/**
 * `match_products` (main.py:187-231): each offer is compared with every catalogue entry
 * and kept with the best-scoring one, provided its score is above 80; matched offers are
 * grouped under their own model name in a dictionary that remembers insertion order, and
 * the others are listed as unmatched.
 *
 * `fuzz.partial_ratio` is a parameter (`Scorer`): `None` stands for a call that raised,
 * which the bare `except` at main.py:218-219 swallows.
 */
module ProductMatching {
  import opened Wrappers
  import opened Text

  /** The `yandex` entry of an offer: no such key, `None`, or the title found on the market */
  datatype YandexField = Absent | Null | Title(text: string)

  /** An offer record: the cleaned record of the price list plus its `yandex` entry */
  datatype Device = Device(model: string, price: int, customer: Option<Cell>, yandex: YandexField)

  /** A catalogue row as read from the shop's workbook */
  type CatalogEntry = seq<Option<Cell>>

  /** `{**device_data, "matched": True, "db_product": best_match}` */
  datatype Matched = Matched(device: Device, product: CatalogEntry)

  /** `fuzz.partial_ratio`; `None` when it raises */
  type Scorer = (string, string) -> Option<int>

  /** Scores must be strictly above this to match (main.py:215). */
  const Threshold := 80

  /**
   * `db_product[3] + ' ' + db_product[8] + ' ' + db_product[10]`: `None` when it raises,
   * which it does for a short row (IndexError) or a field that is not text (TypeError).
   */
  function CatalogKey(entry: CatalogEntry): Option<string> {
    if |entry| > 10 && entry[3].Some? && entry[3].value.Text?
       && entry[8].Some? && entry[8].value.Text? && entry[10].Some? && entry[10].value.Text?
    then Some(entry[3].value.s + " " + entry[8].value.s + " " + entry[10].value.s)
    else None
  }

  /** The score of one catalogue entry for one offer, `None` when none is computed (main.py:209-217) */
  function EntryScore(d: Device, entry: CatalogEntry, ratio: Scorer): Option<int> {
    match d.yandex
    case Title(title) =>
      (match CatalogKey(entry)
       case Some(key) => ratio(LowerStr(title), LowerStr(key))
       case None => None)
    case _ => None
  }

  /** The entry would be accepted by a best score below its own. */
  predicate Accepts(d: Device, entry: CatalogEntry, ratio: Scorer) {
    var s := EntryScore(d, entry, ratio);
    s.Some? && s.value > Threshold
  }

  /** The entry scores below `v` (or not at all). */
  predicate ScoresBelow(d: Device, entry: CatalogEntry, ratio: Scorer, v: int) {
    var s := EntryScore(d, entry, ratio);
    s.None? || s.value < v
  }

  /** `best_match` (as an index) and `best_score` */
  datatype Search = Search(best: Option<nat>, score: int)

  /** The inner loop of main.py:203-219 after the first `n` catalogue entries */
  function BestIn(d: Device, catalog: seq<CatalogEntry>, ratio: Scorer, n: nat): (r: Search)
    requires n <= |catalog|
    ensures r.best.Some? ==> r.best.value < n
  {
    if n == 0 then Search(None, 0)
    else
      var r := BestIn(d, catalog, ratio, n - 1);
      var s := EntryScore(d, catalog[n - 1], ratio);
      if s.Some? && s.value > r.score && s.value > Threshold then Search(Some(n - 1), s.value) else r
  }

  /**
   * No entry is chosen exactly when none scores above 80.  Otherwise the chosen entry scores
   * above 80, every earlier entry scores strictly less (the first of equal best scores wins)
   * and no later entry scores more.
   */
  lemma {:induction false} BestInSpec(d: Device, catalog: seq<CatalogEntry>, ratio: Scorer, n: nat)
    requires n <= |catalog|
    ensures var r := BestIn(d, catalog, ratio, n);
      && (r.best.None? <==> forall k :: 0 <= k < n ==> !Accepts(d, catalog[k], ratio))
      && (r.best.None? ==> r.score == 0)
      && (r.best.Some? ==>
            && EntryScore(d, catalog[r.best.value], ratio) == Some(r.score)
            && r.score > Threshold
            && (forall k :: 0 <= k < r.best.value ==> ScoresBelow(d, catalog[k], ratio, r.score))
            && (forall k :: r.best.value < k < n ==> ScoresBelow(d, catalog[k], ratio, r.score + 1)))
  {
    if n > 0 {
      BestInSpec(d, catalog, ratio, n - 1);
    }
  }

  /** The catalogue entry an offer is matched with */
  function MatchOne(d: Device, catalog: seq<CatalogEntry>, ratio: Scorer): (r: Option<nat>)
    ensures r.Some? ==> r.value < |catalog|
  {
    BestIn(d, catalog, ratio, |catalog|).best
  }

  /** An offer without a market title is never matched (main.py:210-211). */
  lemma NoTitleNoMatch(d: Device, catalog: seq<CatalogEntry>, ratio: Scorer)
    requires !d.yandex.Title?
    ensures MatchOne(d, catalog, ratio).None?
  {
    BestInSpec(d, catalog, ratio, |catalog|);
  }

  /** A score of exactly 80 is not enough (main.py:215). */
  lemma EightyNeverMatches(d: Device, catalog: seq<CatalogEntry>, ratio: Scorer)
    requires forall k :: 0 <= k < |catalog| ==> EntryScore(d, catalog[k], ratio) in {None, Some(80)}
    ensures MatchOne(d, catalog, ratio).None?
  {
    BestInSpec(d, catalog, ratio, |catalog|);
  }

  // ---------------------------------------------------------------- grouping

  /** `matched_products` (its keys in insertion order, and the map) and `unmatched_products` */
  datatype MatchState = MatchState(keys: seq<string>, buckets: map<string, seq<Matched>>, unmatched: seq<Device>)

  /** The catalogue entry an offer is matched with, as `best_match` holds it */
  function Found(d: Device, catalog: seq<CatalogEntry>, ratio: Scorer): Option<CatalogEntry> {
    match MatchOne(d, catalog, ratio)
    case None => None
    case Some(j) => Some(catalog[j])
  }

  /** main.py:221-229 for one offer; the `is not` guard compares a dict with a list and always holds. */
  function Place(st: MatchState, d: Device, found: Option<CatalogEntry>): MatchState {
    match found
    case None => st.(unmatched := st.unmatched + [d])
    case Some(product) =>
      var m := Matched(d, product);
      if d.model in st.buckets then st.(buckets := st.buckets[d.model := st.buckets[d.model] + [m]])
      else st.(keys := st.keys + [d.model], buckets := st.buckets[d.model := [m]])
  }

  /** The outer loop of main.py:199-229 over the first `n` offers */
  function MatchAll(devices: seq<Device>, catalog: seq<CatalogEntry>, ratio: Scorer, n: nat): MatchState
    requires n <= |devices|
  {
    if n == 0 then MatchState([], map[], [])
    else Place(MatchAll(devices, catalog, ratio, n - 1), devices[n - 1], Found(devices[n - 1], catalog, ratio))
  }

  /** The matched records of the first `n` offers whose model is `model`, in offer order */
  function Bucket(devices: seq<Device>, catalog: seq<CatalogEntry>, ratio: Scorer, model: string, n: nat): seq<Matched>
    requires n <= |devices|
  {
    if n == 0 then []
    else
      var d := devices[n - 1];
      var found := Found(d, catalog, ratio);
      Bucket(devices, catalog, ratio, model, n - 1)
        + (if found.Some? && d.model == model then [Matched(d, found.value)] else [])
  }

  /** The unmatched offers among the first `n`, in offer order */
  function Unmatched(devices: seq<Device>, catalog: seq<CatalogEntry>, ratio: Scorer, n: nat): seq<Device>
    requires n <= |devices|
  {
    if n == 0 then []
    else
      var d := devices[n - 1];
      Unmatched(devices, catalog, ratio, n - 1) + (if Found(d, catalog, ratio).None? then [d] else [])
  }

  /** The bucket under `model`, or nothing when there is no such key */
  function BucketOrEmpty(st: MatchState, model: string): seq<Matched> {
    if model in st.buckets then st.buckets[model] else []
  }

  /** The shape of the dictionary: distinct keys in insertion order, non-empty buckets */
  predicate WellGrouped(st: MatchState) {
    && (forall i, j :: 0 <= i < j < |st.keys| ==> st.keys[i] != st.keys[j])
    && (forall k :: k in st.buckets ==> k in st.keys && |st.buckets[k]| > 0)
    && (forall i :: 0 <= i < |st.keys| ==> st.keys[i] in st.buckets)
  }

  /** The total number of records in the buckets listed in `keys` */
  function SumSizes(keys: seq<string>, buckets: map<string, seq<Matched>>): nat
    requires forall i :: 0 <= i < |keys| ==> keys[i] in buckets
  {
    if |keys| == 0 then 0 else SumSizes(keys[..|keys| - 1], buckets) + |buckets[keys[|keys| - 1]]|
  }

  lemma {:induction false} SumSizesOther(keys: seq<string>, buckets: map<string, seq<Matched>>, k: string, v: seq<Matched>)
    requires forall i :: 0 <= i < |keys| ==> keys[i] in buckets && keys[i] != k
    ensures SumSizes(keys, buckets[k := v]) == SumSizes(keys, buckets)
  {
    if |keys| > 0 {
      SumSizesOther(keys[..|keys| - 1], buckets, k, v);
    }
  }

  lemma {:induction false} SumSizesGrow(keys: seq<string>, buckets: map<string, seq<Matched>>, k: string, m: Matched)
    requires forall i :: 0 <= i < |keys| ==> keys[i] in buckets
    requires forall i, j :: 0 <= i < j < |keys| ==> keys[i] != keys[j]
    requires k in keys && k in buckets
    ensures SumSizes(keys, buckets[k := buckets[k] + [m]]) == SumSizes(keys, buckets) + 1
  {
    var last := keys[|keys| - 1];
    var init := keys[..|keys| - 1];
    if last == k {
      SumSizesOther(init, buckets, k, buckets[k] + [m]);
    } else {
      SumSizesGrow(init, buckets, k, m);
    }
  }

  /** Placing one offer keeps the dictionary well grouped. */
  lemma PlaceGrouped(st: MatchState, d: Device, found: Option<CatalogEntry>)
    requires WellGrouped(st)
    ensures WellGrouped(Place(st, d, found))
  {
  }

  /** Placing one offer adds exactly one record, to a bucket or to the unmatched list. */
  lemma PlaceCounts(st: MatchState, d: Device, found: Option<CatalogEntry>)
    requires WellGrouped(st)
    ensures var st' := Place(st, d, found);
      && (forall i :: 0 <= i < |st'.keys| ==> st'.keys[i] in st'.buckets)
      && SumSizes(st'.keys, st'.buckets) + |st'.unmatched| == SumSizes(st.keys, st.buckets) + |st.unmatched| + 1
  {
    match found
    case None =>
    case Some(product) =>
      var m := Matched(d, product);
      if d.model in st.buckets {
        SumSizesGrow(st.keys, st.buckets, d.model, m);
      } else {
        SumSizesOther(st.keys, st.buckets, d.model, [m]);
        assert (st.keys + [d.model])[..|st.keys|] == st.keys;
      }
  }

  /** Placing one offer extends only the bucket of its own model, and only when it matched. */
  lemma PlaceBucket(st: MatchState, d: Device, found: Option<CatalogEntry>, model: string)
    ensures BucketOrEmpty(Place(st, d, found), model)
        == BucketOrEmpty(st, model) + (if found.Some? && d.model == model then [Matched(d, found.value)] else [])
  {
  }

  /** Placing one offer extends the unmatched list only when it did not match. */
  lemma PlaceUnmatched(st: MatchState, d: Device, found: Option<CatalogEntry>)
    ensures Place(st, d, found).unmatched == st.unmatched + (if found.None? then [d] else [])
  {
  }

  /** After any number of offers the dictionary is well grouped and every offer is counted once. */
  lemma {:induction false} MatchAllCounts(devices: seq<Device>, catalog: seq<CatalogEntry>, ratio: Scorer, n: nat)
    requires n <= |devices|
    ensures var st := MatchAll(devices, catalog, ratio, n);
      && WellGrouped(st)
      && SumSizes(st.keys, st.buckets) + |st.unmatched| == n
  {
    if n > 0 {
      MatchAllCounts(devices, catalog, ratio, n - 1);
      var st := MatchAll(devices, catalog, ratio, n - 1);
      var found := Found(devices[n - 1], catalog, ratio);
      PlaceGrouped(st, devices[n - 1], found);
      PlaceCounts(st, devices[n - 1], found);
    }
  }

  /** Each model's bucket holds exactly the matched offers of that model, in offer order. */
  lemma {:induction false} MatchAllBuckets(devices: seq<Device>, catalog: seq<CatalogEntry>, ratio: Scorer, n: nat, model: string)
    requires n <= |devices|
    ensures BucketOrEmpty(MatchAll(devices, catalog, ratio, n), model) == Bucket(devices, catalog, ratio, model, n)
  {
    if n > 0 {
      MatchAllBuckets(devices, catalog, ratio, n - 1, model);
      PlaceBucket(MatchAll(devices, catalog, ratio, n - 1), devices[n - 1], Found(devices[n - 1], catalog, ratio), model);
    }
  }

  /** The unmatched list holds exactly the offers that found no entry, in offer order. */
  lemma {:induction false} MatchAllUnmatched(devices: seq<Device>, catalog: seq<CatalogEntry>, ratio: Scorer, n: nat)
    requires n <= |devices|
    ensures MatchAll(devices, catalog, ratio, n).unmatched == Unmatched(devices, catalog, ratio, n)
  {
    if n > 0 {
      MatchAllUnmatched(devices, catalog, ratio, n - 1);
      PlaceUnmatched(MatchAll(devices, catalog, ratio, n - 1), devices[n - 1], Found(devices[n - 1], catalog, ratio));
    }
  }

  method MatchProducts(devices: seq<Device>, catalog: seq<CatalogEntry>, ratio: Scorer)
    returns (keys: seq<string>, buckets: map<string, seq<Matched>>, unmatched: seq<Device>)
    ensures MatchState(keys, buckets, unmatched) == MatchAll(devices, catalog, ratio, |devices|)
  {
    keys, buckets, unmatched := [], map[], [];
    for i := 0 to |devices|
      invariant MatchState(keys, buckets, unmatched) == MatchAll(devices, catalog, ratio, i)
    {
      var d := devices[i];
      var bestMatch: Option<nat> := None;
      var bestScore := 0;
      for j := 0 to |catalog|
        invariant Search(bestMatch, bestScore) == BestIn(d, catalog, ratio, j)
      {
        if d.yandex.Title? {
          var key := CatalogKey(catalog[j]);
          if key.Some? {
            var score := ratio(LowerStr(d.yandex.text), LowerStr(key.value));
            if score.Some? && score.value > bestScore && score.value > Threshold {
              bestScore := score.value;
              bestMatch := Some(j);
            }
          }
        }
      }
      if bestMatch.Some? {
        var m := Matched(d, catalog[bestMatch.value]);
        if d.model !in buckets {
          keys := keys + [d.model];
          buckets := buckets[d.model := [m]];
        } else {
          buckets := buckets[d.model := buckets[d.model] + [m]];
        }
      } else {
        unmatched := unmatched + [d];
      }
    }
  }
}
