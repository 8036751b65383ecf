# Price-list product matching, modelled in Dafny

The Python tool (`main.py`, `utils.py`) reads a price list exported from Telegram
supplier chats into a workbook. It does four things:

- It translates the English colour names in the workbook to Russian and saves a copy
  whose name gets `_` around the part before the first dot.
- It keeps the lines of the list that look like offers (`name price [region]`, priced
  above 100) and tags each one with the supplier named on its own row or, failing that,
  on the nearest row above it that names one.
- It matches each offer, through the product title found on the market, with the
  best-scoring entry of the shop's catalogue. The score must be strictly above 80.
  Matched offers are grouped by their model name.
- It writes one report row per group, with a recommended price (the price plus 10%) and
  the offers' supplier and price pairs.

The model covers these core pieces:

| Dafny module | file | models |
|---|---|---|
| `Text` | text.dfy | `\d`, `\s`, `\w`, `\b`, `str.strip()`, `str.lower()`, `str()` of a cell |
| `LineRules`, `LineFacts` | line_rules.dfy | the noise patterns and the offer pattern of `clean_price_data` |
| `PriceScan`, `ScanFacts` | price_scan.dfy | the row loop of `clean_price_data` |
| `ColorNames`, `ColorFacts` | colors.dfy | `extract_color_from_string` |
| `ModelNumbers` | model_numbers.dfy | `extract_model_number` |
| `ColorTranslation` | translate.dfy | the substitution loop and the new file name of `translate_color_in_excel` |
| `ProductMatching` | matching.dfy | `match_products` |
| `PriceReport` | report.dfy | the per-group price logic of `print_results` |

The regular expressions are written as predicates over the line. The split points a
backtracking engine would try appear as bounded existentials. The capturing patterns are
given by the greedy engine's choice: the rightmost split for `(.+)\s+(\d+)` and the
longest run for the model-number pattern. The loops that the code runs are Dafny methods:
`CleanPriceData`, `TranslateText`, `TranslateSheet`, `MatchProducts`, `SeveralOffers`,
`BucketPrices` and `MatchedReport`. Each is proved equal to a specification function, and
lemmas state what that function guarantees.

In two places the code behaves differently from what a reader would expect. The model follows the
code and proves what the code does:

- **Several offers in one group** (main.py:267-281):
  - Column `i` is filled from the group's `i`-th offer, whoever its supplier is.
  - The guard `min(min_price) not in recommended_prices` looks for a raw minimum among
    values 10% above minima that are no smaller. For positive prices the membership test
    therefore never succeeds, so the guard always passes.
  - As a result, every column up to the group's size receives 1.1 times the running
    minimum. Offers of 1000 and 1200 give 1100 in both columns, not 1100 and a blank
    (`PriceReport.TwoOffers`, `PriceReport.SlotsOfPositivePrices`).
- **Longer colour phrases do not win** (main.py:164): the engine tries the alternatives in
  the order written. "Midnight Sky" is therefore reported as "midnight", and
  `Midnight Sky`, `розовый кварц` and `облачный белый` can never be reported.

Two more consequences of the code, proved here:

- The `‼️…‼️` rule (utils.py:61) is dead code. Its characters already belong to the
  decoration class of utils.py:57.
- In the colour translation, "black" comes first in the dictionary, so the text
  "Space Black" becomes "Space черный": the entry for "space black" finds no phrase to
  replace in it (`ColorTranslation.SpaceBlackTranslation`).

## Model

| member | source | states |
|---|---|---|
| Text.Strip | utils.py:52 | the result is empty iff the line is all white space; otherwise it is the line without its leading and trailing white space, and neither end of it is white space |
| Text.LowerStr | main.py:214 | lower-casing keeps the length and, position by position, maps each character through the case mapping, keeps word characters and white space where they were, and leaves only characters that lower-casing does not change |
| Text.LowerStrIdempotent | main.py:214 | lower-casing an already lower-cased string changes nothing |
| Text.CiMatchLower | main.py:164 | a case-insensitive match is the same as equality of the lower-cased texts |
| LineRules.LastSplitFrom | utils.py:67 | the greedy search returns a split of the offer pattern, and no valid split at or below the start lies to the right of it |
| LineRules.OfferSplit | utils.py:67 | the offer pattern matches iff some split exists, and the split taken is the rightmost one |
| LineRules.PriceGroup | utils.py:67-68 | after a split, the first non-space character is a digit, and the price group is the whole digit run starting there |
| LineRules.OfferMatch | utils.py:67-68 | `re.match` succeeds iff a split exists; the name group is the line up to the rightmost split, and the price group is the digit run after the white space |
| LineRules.Classify | utils.py:57-68 | a line is noise iff one of the five noise patterns matches; it is an offer iff none does and the offer pattern matches, and then the price is all digits |
| LineFacts.BangRuleIsDeadCode | utils.py:57-62 | every line the `‼️…‼️` rule accepts is already discarded by the decoration rule |
| LineFacts.SplitIsAtSpace | utils.py:67 | the name group always ends just before white space |
| LineFacts.PriceAfterLastSpace | utils.py:67-68 | when only digits follow the last white space, the name is everything before it and the price is those digits |
| LineFacts.MidnightOffer | utils.py:67-68 | "iPhone 13 Pro 128 Midnight 45000" gives the name "iPhone 13 Pro 128 Midnight" and the price "45000" |
| PriceScan.ClassRecord | utils.py:67-74 | a classified line yields a record iff it is an offer priced above 100; the record's price is above 100, its supplier is the one in force, and its model has no white space at either end and is empty only when the name group is all white space |
| PriceScan.AbortIsFinal | utils.py:42-81 | once a row makes the unpacking raise, the whole function returns `None` |
| PriceScan.CleanPriceData | utils.py:42-75 | the loop returns exactly the fold `CleanedRecords` over the rows |
| ScanFacts.RecordShape | utils.py:67-74 | a record carries the supplier in force, a price above 100 and a non-empty model without surrounding white space |
| ScanFacts.AbortsIffWideRow | utils.py:43-45 | the scan fails iff some row has more than two cells |
| ScanFacts.ScannedRecordsValid | utils.py:67-74 | every returned record has a price above 100 and a non-empty stripped model |
| ScanFacts.AtMostOneRecordPerRow | utils.py:42-74 | a scan that succeeds finds at most as many records as there are rows |
| ScanFacts.RowAddsAtMostOne | utils.py:42-74 | one more row never undoes a scan, keeps the records found so far as a prefix, and adds at most one record |
| ScanFacts.ScanOnlyAppends | utils.py:42-75 | scanning more rows only appends records, so records keep the order of the rows |
| ScanFacts.SupplierStep | utils.py:47-48 | a row whose second cell is truthy sets the supplier; any other row keeps it |
| ScanFacts.NoSupplierUntilNamed | utils.py:40-48 | until some row names a supplier, the supplier in force is `None` |
| ScanFacts.SupplierInForce | utils.py:47-48 | the supplier in force is the second cell of the last row that names one |
| ScanFacts.NumberLinesNeverOffer | utils.py:52-74 | a number in the first column never yields a record |
| ColorNames.FirstMatch | main.py:164-166 | no match iff no alternative matches as a whole word anywhere; otherwise the match is at the leftmost position, and there it is the earliest alternative |
| ColorNames.FirstWord | main.py:164-167 | the result is `None` iff nothing matches; otherwise it is the lower-cased alternative that `findall` reports first |
| ColorFacts.ReportedAtStart | main.py:164-166 | an alternative matching at the start, with no earlier alternative matching there, is the reported colour |
| ColorFacts.MidnightSkyGivesMidnight | main.py:164-166 | "Midnight Sky" gives "midnight" |
| ColorFacts.LeftmostBeatsListOrder | main.py:164-166 | "Midnight Black" gives "midnight" although `Black` is listed first |
| ColorFacts.SpaceBlackIsOneColor | main.py:164-166 | "Space Black 256" gives "space black" |
| ColorFacts.LeadingWordMatches | main.py:164 | when a phrase matches as a whole word, so does each of its leading words |
| ColorFacts.Shadowed | main.py:164 | an alternative that begins with an earlier, shorter alternative is never the one reported |
| ColorFacts.MidnightSkyNeverReported | main.py:164 | `Midnight Sky` is never reported |
| ColorFacts.RoseQuartzNeverReported | main.py:164 | `розовый кварц` is never reported |
| ColorFacts.CloudyWhiteNeverReported | main.py:164 | `облачный белый` is never reported |
| ModelNumbers.RoundEnd | main.py:180 | one round of the starred group consumes only model characters; it consumes nothing iff the next character is not one |
| ModelNumbers.GreedyIsRun | main.py:180 | repeating the rounds greedily consumes exactly the run of digits, ASCII letters, `+` and white space |
| ModelNumbers.FirstDigit | main.py:180 | the result is the first digit's position, and `None` iff there is no digit |
| ModelNumbers.ModelNumberFound | main.py:180-184 | a model number is found iff the string holds a digit; it starts at the first digit, consists of model characters, and is followed by the end or a non-model character |
| ModelNumbers.ModelNumberAt | main.py:180-184 | the first digit and the end of the run after it determine the result |
| ModelNumbers.HonorModelNumber | main.py:180-184 | "Honor 200 Lite 8/256 Green -" gives "200 Lite 8" |
| ColorTranslation.SubFromNone | main.py:85-87 | without a whole-word occurrence, the substitution leaves the text unchanged |
| ColorTranslation.SubFromFirst | main.py:85-87 | text before the first occurrence is kept, the occurrence is replaced, and the scan resumes after it |
| ColorTranslation.TranslateNone | main.py:84-87 | if none of the dictionary's names occurs in the text, the translation leaves it unchanged |
| ColorTranslation.TranslationKeys | main.py:25-77 | no English name in the dictionary is empty |
| ColorTranslation.TranslationNames | main.py:25-77 | "black" is the first entry, and every English name is a lower-case phrase other than "space" |
| ColorTranslation.TranslateText | main.py:84-87 | the loop applies the substitutions of the dictionary one after another, in its order |
| ColorTranslation.SpaceBlackTranslation | main.py:25-87 | "Space Black" becomes "Space черный" |
| ColorTranslation.TranslateSheet | main.py:79-89 | every non-empty cell becomes its translated text, and empty cells stay empty |
| ColorTranslation.FirstIndexOf | main.py:90 | the position of the first dot, or the length when there is none |
| ColorTranslation.JoinSplit | main.py:90-92 | joining the pieces of a split gives back the path |
| ColorTranslation.SplitJoin | main.py:90-92 | splitting a join of dot-free pieces gives back the pieces |
| ColorTranslation.NewFilePathShape | main.py:90-92 | the new path is the old one with `_` added at the start and just before the first dot |
| ColorTranslation.NewFilePathAt | main.py:90-92 | the new path is determined by where the first dot is |
| ColorTranslation.PriceListFileName | main.py:90-92 | "Прайсы с телеграма 28.01.xlsx" becomes "_Прайсы с телеграма 28_.01.xlsx" |
| ColorTranslation.ShortFileName | main.py:90-92 | "a.b.xlsx" becomes "_a_.b.xlsx" |
| ProductMatching.BestIn | main.py:203-219 | the entry chosen among the first `n` is one of them |
| ProductMatching.BestInSpec | main.py:203-219 | no entry is chosen iff none scores above 80; otherwise the chosen entry scores above 80, earlier entries score strictly less, and later entries score no more |
| ProductMatching.MatchOne | main.py:203-221 | the matched entry is one of the catalogue's |
| ProductMatching.NoTitleNoMatch | main.py:209-211 | an offer with no market title (key absent or `None`) is never matched |
| ProductMatching.EightyNeverMatches | main.py:215 | a best score of exactly 80 is not a match |
| ProductMatching.PlaceGrouped | main.py:221-229 | placing one offer keeps the keys distinct and the buckets non-empty |
| ProductMatching.PlaceCounts | main.py:221-229 | placing one offer adds exactly one record, to a bucket or to the unmatched list |
| ProductMatching.PlaceBucket | main.py:221-227 | one offer extends only its own model's bucket, and only when it matched |
| ProductMatching.PlaceUnmatched | main.py:228-229 | one offer extends the unmatched list only when it did not match |
| ProductMatching.MatchAllCounts | main.py:199-231 | the result is well grouped, and every offer lands exactly once in a bucket or in the unmatched list |
| ProductMatching.MatchAllBuckets | main.py:199-231 | each model's bucket holds exactly the matched offers of that model, in offer order |
| ProductMatching.MatchAllUnmatched | main.py:199-231 | the unmatched list holds exactly the offers that found no entry, in offer order |
| ProductMatching.MatchProducts | main.py:199-231 | the nested loops return exactly the fold `MatchAll` over the offers |
| PriceReport.MinIsLeast | main.py:274-276 | `min` returns one of the values, and no value is smaller |
| PriceReport.IndexOf | main.py:286 | `index()` fails iff the supplier is `None` or missing from the list; otherwise it returns the first position holding it |
| PriceReport.IndexOfListed | main.py:269-271 | in a list without repeats, each supplier's index is its own position |
| PriceReport.SingleOfferRow | main.py:283-291 | a single offer fails iff its supplier is unlisted; otherwise only its supplier's column holds its price plus 10%, and the pairs are that offer alone |
| PriceReport.MinPricesSeen | main.py:268-273 | after `i` suppliers, `min_price` holds the first `min(i, size)` offer prices in order |
| PriceReport.PairsByPosition | main.py:269-281 | with several offers, pair `k` is the group's `k`-th offer, or blanks past the group's end |
| PriceReport.NotListed | main.py:274 | for positive prices, the running minimum never equals a column filled earlier |
| PriceReport.RecommendStep | main.py:274-276 | for positive prices, one more offer sets its own column to 1.1 times the new minimum and leaves the other columns unchanged |
| PriceReport.SlotsOfPositivePrices | main.py:269-276 | for positive prices, column `k` holds 1.1 times the minimum of the first `k+1` offers, and columns past the group stay blank |
| PriceReport.TwoOffers | main.py:267-281 | offers of 1000 and 1200 fill both columns with 1100 |
| PriceReport.SeveralOffers | main.py:267-281 | the loop over the suppliers returns exactly the columns and pairs of the fold |
| PriceReport.BucketPrices | main.py:265-291 | one group's prices are exactly `BucketRow` |
| PriceReport.ReportFailsIffUnlisted | main.py:264-296 | the report fails iff some group is a single offer from a supplier missing from the supplier list |
| PriceReport.ReportRowContents | main.py:264-296 | a report that succeeds has one row per key, in key order, each led by its group's catalogue entry and holding exactly the prices that group's own row computes |
| PriceReport.ReportFailsOnce | main.py:264-300 | once a group fails, the whole report fails |
| PriceReport.MatchedReport | main.py:264-296 | the loop over the groups returns exactly `Report` |

## Left out

- Workbook and JSON I/O are not modelled. The sheet is a sequence of rows (or an
  `array2` for the translation); opening, saving and the error messages printed on failure
  are out of scope, and a missing file is not modelled.
- `fuzz.partial_ratio` is a parameter (`Scorer`); its internals are not part of this
  model.
- The market lookup is not modelled: selenium, `create_driver` and the `__main__` block
  are out of scope. An offer's `yandex` entry is an input.
- `read_excel_file`, `save_file` and `open_json_file` are not part of this model.
- Cells hold text or integers only. Float and date cells are not modelled.
- `p + p*0.1` is computed on exact reals. Floating-point rounding is not modelled.
- The character classes `\w`, `\s` and `\d`, and `str.lower()`, cover ASCII, Unicode
  white space and the Russian alphabet. They do not cover all of Unicode.
- The supplier list is `list(set(...))`, whose order Python does not fix. The model
  takes it as any list without repeats.
- The workbook headers, `max_customer` and the unmatched-products workbook are not
  modelled. They only lay out columns and print.
- PriceScan.CleanPriceData: does not model the limit that CPython 3.11 and later (and
  security releases of earlier versions) put on `int()` of a digit string over 4300 digits.
  There `int(price)` at utils.py:69 raises `ValueError`, and the `except Exception` at
  utils.py:79-81 makes the function return `None`; the model reads a digit run of any
  length as its number.
- PriceScan.ClassRecord: also takes a price of more than 4300 digits as its number, where
  CPython 3.11 and later raise `ValueError` instead.
- The `row is None` test of utils.py:43 is not modelled. `iter_rows` never yields `None`.
- ColorNames.ExtractColor: has no contract of its own. Its behaviour is stated by
  `ColorNames.FirstWord`, on which it is defined, and by the lemmas in `ColorFacts`.
- ModelNumbers.ExtractModelNumber: has no contract of its own. Its behaviour is stated
  by `ModelNumbers.ModelNumberFound` and `ModelNumbers.ModelNumberAt`.
- The `'yandex' in device_data` test and an exception inside `partial_ratio`: both lead to
  no score, as the bare `except` at main.py:218-219 does. A title that is not a string
  is not modelled.
