/**
 * The price part of `print_results` (main.py:234-311): one output row per bucket of
 * matched offers, holding a recommended price per supplier and the offers' supplier and
 * price pairs (main.py:264-296).
 *
 * `p + p*0.1` is computed on exact reals; the workbook, its header and the unmatched
 * report are not part of this model.
 */
module PriceReport {
  import opened Wrappers
  import opened Text
  import opened ProductMatching

  /** A recommended-price column: `""` or a number */
  datatype Slot = Blank | Price(value: real)

  /** Two `customer_prices` entries: an offer's supplier and price, or `' ', ' '` */
  datatype Pair = Offer(customer: Option<Cell>, price: int) | NoOffer

  datatype PriceRow = PriceRow(recommended: seq<Slot>, pairs: seq<Pair>)

  /** A row of the matched report: the catalogue entry followed by the prices */
  datatype ReportRow = ReportRow(product: CatalogEntry, prices: PriceRow)

  /** `p + (p*0.1)` */
  function Markup(p: int): real {
    p as real + p as real * 0.1
  }

  /** `min(xs)` */
  function Min(xs: seq<int>): int
    requires |xs| > 0
  {
    if |xs| == 1 then xs[0]
    else
      var m := Min(xs[..|xs| - 1]);
      if xs[|xs| - 1] < m then xs[|xs| - 1] else m
  }

  /** `min` returns one of the values, and none is smaller. */
  lemma {:induction false} MinIsLeast(xs: seq<int>)
    requires |xs| > 0
    ensures Min(xs) in xs
    ensures forall k :: 0 <= k < |xs| ==> Min(xs) <= xs[k]
  {
    if |xs| > 1 {
      var init := xs[..|xs| - 1];
      MinIsLeast(init);
      assert forall k :: 0 <= k < |xs| - 1 ==> xs[k] == init[k];
    }
  }

  /** `suppliers.index(c)`; `None` where Python raises ValueError */
  function IndexOf(suppliers: seq<Cell>, c: Option<Cell>): (r: Option<nat>)
    ensures r.None? <==> c.None? || c.value !in suppliers
    ensures r.Some? ==> r.value < |suppliers| && suppliers[r.value] == c.value
    ensures r.Some? ==> forall k :: 0 <= k < r.value ==> suppliers[k] != c.value
  {
    if c.None? || |suppliers| == 0 then None
    else if suppliers[0] == c.value then Some(0)
    else match IndexOf(suppliers[1..], c)
      case None => None
      case Some(k) => Some(k + 1)
  }

  /** The supplier list is `list(set(...))`: no name occurs twice. */
  predicate Distinct(suppliers: seq<Cell>) {
    forall i, j :: 0 <= i < j < |suppliers| ==> suppliers[i] != suppliers[j]
  }

  function Blanks(n: nat): (r: seq<Slot>)
    ensures |r| == n && forall k :: 0 <= k < n ==> r[k] == Blank
  {
    seq(n, k => Blank)
  }

  // ---------------------------------------------------------------- one offer (main.py:283-291)

  function SingleRow(offer: Matched, suppliers: seq<Cell>): Option<PriceRow> {
    var d := offer.device;
    match IndexOf(suppliers, d.customer)
    case None => None
    case Some(index) => Some(PriceRow(Blanks(|suppliers|)[index := Price(Markup(d.price))], [Offer(d.customer, d.price)]))
  }

  // ---------------------------------------------------------------- several offers (main.py:267-281)

  /*
   * The loop at main.py:269-281 visits the suppliers in list order.  The supplier at
   * position `j` of the distinct list has index `j`, so `product[index]` is the bucket's
   * `j`-th offer, whoever its supplier is; past the bucket's end it raises IndexError and
   * the pair is `' ', ' '`.  The three functions below give `min_price`,
   * `customer_prices` and `recommended_prices` after the first `i` suppliers.
   */

  function MinPrices(bucket: seq<Matched>, i: nat): seq<int> {
    if i == 0 then []
    else MinPrices(bucket, i - 1) + (if i - 1 < |bucket| then [bucket[i - 1].device.price] else [])
  }

  function PairsAfter(bucket: seq<Matched>, i: nat): seq<Pair> {
    if i == 0 then []
    else
      var j := i - 1;
      PairsAfter(bucket, j) + [if j < |bucket| then Offer(bucket[j].device.customer, bucket[j].device.price) else NoOffer]
  }

  function SlotsAfter(bucket: seq<Matched>, suppliers: seq<Cell>, i: nat): (r: seq<Slot>)
    ensures |r| == |suppliers|
  {
    if i == 0 then Blanks(|suppliers|)
    else
      var j := i - 1;
      var slots := SlotsAfter(bucket, suppliers, j);
      if j < |bucket| then Recommend(slots, j, Min(MinPrices(bucket, i))) else slots
  }

  /** `m in recommended_prices`: Python's `==` between a number and `""` is false. */
  predicate Listed(slots: seq<Slot>, m: int) {
    Price(m as real) in slots
  }

  /** main.py:274-276: the column gets `m + m*0.1` unless `m` is already among the columns. */
  function Recommend(slots: seq<Slot>, j: nat, m: int): (r: seq<Slot>)
    ensures |r| == |slots|
  {
    if Listed(slots, m) || j >= |slots| then slots else slots[j := Price(Markup(m))]
  }

  /** The prices of one bucket; `None` when `index()` raises ValueError, which ends the whole report */
  function BucketRow(bucket: seq<Matched>, suppliers: seq<Cell>): Option<PriceRow>
    requires |bucket| > 0
  {
    if |bucket| > 1 then
      Some(PriceRow(SlotsAfter(bucket, suppliers, |suppliers|), PairsAfter(bucket, |suppliers|)))
    else SingleRow(bucket[0], suppliers)
  }

  /** The offers' prices, in bucket order */
  function Prices(bucket: seq<Matched>): (ps: seq<int>)
    ensures |ps| == |bucket| && forall k :: 0 <= k < |bucket| ==> ps[k] == bucket[k].device.price
  {
    seq(|bucket|, k requires 0 <= k < |bucket| => bucket[k].device.price)
  }

  function MinNat(a: nat, b: nat): nat { if a < b then a else b }

  // ---------------------------------------------------------------- what the rows hold

  /**
   * A single offer fills only the column of its own supplier, with its price plus 10%; a
   * supplier missing from the list (`None` included) makes `index()` raise.
   */
  lemma SingleOfferRow(bucket: seq<Matched>, suppliers: seq<Cell>)
    requires |bucket| == 1 && Distinct(suppliers)
    ensures var r := BucketRow(bucket, suppliers); var d := bucket[0].device;
      && (r.None? <==> d.customer.None? || d.customer.value !in suppliers)
      && (r.Some? ==>
            && |r.value.recommended| == |suppliers|
            && r.value.pairs == [Offer(d.customer, d.price)]
            && forall k :: 0 <= k < |suppliers| ==>
                 r.value.recommended[k] == (if suppliers[k] == d.customer.value then Price(Markup(d.price)) else Blank))
  {
  }

  /** With several offers, `min_price` holds the prices of the offers seen so far. */
  lemma {:induction false} MinPricesSeen(bucket: seq<Matched>, i: nat)
    ensures MinPrices(bucket, i) == Prices(bucket)[..MinNat(i, |bucket|)]
  {
    if i > 0 {
      MinPricesSeen(bucket, i - 1);
      if i - 1 < |bucket| {
        assert Prices(bucket)[..i] == Prices(bucket)[..i - 1] + [bucket[i - 1].device.price];
      }
    }
  }

  /**
   * With several offers, the `k`-th pair is the bucket's `k`-th offer whatever its supplier,
   * and `' ', ' '` once the bucket is exhausted.
   */
  lemma {:induction false} PairsByPosition(bucket: seq<Matched>, i: nat)
    ensures var pairs := PairsAfter(bucket, i);
      && |pairs| == i
      && forall k :: 0 <= k < i ==>
           pairs[k] == (if k < |bucket| then Offer(bucket[k].device.customer, bucket[k].device.price) else NoOffer)
  {
    if i > 0 {
      PairsByPosition(bucket, i - 1);
    }
  }

  /** The column expected when every price is positive: 1.1 times the minimum of the first k+1 offers */
  function ExpectedSlot(bucket: seq<Matched>, k: nat, i: nat): Slot {
    if k < i && k < |bucket| then Price(Markup(Min(Prices(bucket)[..k + 1]))) else Blank
  }

  /** Columns holding 1.1 times minima no smaller than a positive `m` never hold `m` itself. */
  lemma {:induction false} NotListed(bucket: seq<Matched>, slots: seq<Slot>, i: nat, m: int)
    requires 0 < i <= |bucket| && m > 0
    requires forall k :: 0 <= k < |slots| ==> slots[k] == ExpectedSlot(bucket, k, i - 1)
    requires m == Min(Prices(bucket)[..i])
    ensures !Listed(slots, m)
  {
    var ps := Prices(bucket);
    MinIsLeast(ps[..i]);
    forall k | 0 <= k < |slots|
      ensures slots[k] != Price(m as real)
    {
      if k < i - 1 {
        var x := Min(ps[..k + 1]);
        MinIsLeast(ps[..k + 1]);
        assert ps[..i][..k + 1] == ps[..k + 1];
        assert Markup(x) > m as real;
      }
    }
  }

  /** One offer more: the column of that offer gets 1.1 times the new minimum, the others stay. */
  lemma RecommendStep(bucket: seq<Matched>, suppliers: seq<Cell>, j: nat, i: nat)
    requires i == j + 1 && i <= |bucket| && forall k :: 0 <= k < |bucket| ==> bucket[k].device.price > 0
    requires forall k :: 0 <= k < |suppliers| ==> SlotsAfter(bucket, suppliers, j)[k] == ExpectedSlot(bucket, k, j)
    ensures forall k :: 0 <= k < |suppliers| ==> SlotsAfter(bucket, suppliers, i)[k] == ExpectedSlot(bucket, k, i)
  {
    var ps := Prices(bucket);
    var m := Min(ps[..i]);
    var before := SlotsAfter(bucket, suppliers, j);
    MinPricesSeen(bucket, i);
    assert MinPrices(bucket, i) == ps[..i];
    MinIsLeast(ps[..i]);
    NotListed(bucket, before, i, m);
    var after := SlotsAfter(bucket, suppliers, i);
    assert after == Recommend(before, j, m);
    if j < |suppliers| {
      assert after == before[j := Price(Markup(m))];
      assert ExpectedSlot(bucket, j, i) == Price(Markup(m));
    } else {
      assert after == before;
    }
    forall k | 0 <= k < |suppliers| && k != j ensures after[k] == ExpectedSlot(bucket, k, i) {
      assert after[k] == before[k];
    }
  }

  /**
   * For positive prices the guard at main.py:274 looks for a minimum among values 10% above
   * minima that are no smaller; the membership test never succeeds, so the guard always
   * passes: column `k` gets 1.1 times the minimum
   * of the first k+1 offers, and the columns past the bucket stay blank.
   */
  lemma {:induction false} SlotsOfPositivePrices(bucket: seq<Matched>, suppliers: seq<Cell>, i: nat)
    requires forall k :: 0 <= k < |bucket| ==> bucket[k].device.price > 0
    ensures var slots := SlotsAfter(bucket, suppliers, i);
      forall k :: 0 <= k < |suppliers| ==> slots[k] == ExpectedSlot(bucket, k, i)
  {
    if i > 0 {
      SlotsOfPositivePrices(bucket, suppliers, i - 1);
      if i <= |bucket| {
        RecommendStep(bucket, suppliers, i - 1, i);
      }
    }
  }

  /** Offers of 1000 and 1200 for two suppliers put 1100 in both columns. */
  lemma TwoOffers(bucket: seq<Matched>, suppliers: seq<Cell>)
    requires |bucket| == 2 && |suppliers| == 2
    requires bucket[0].device.price == 1000 && bucket[1].device.price == 1200
    ensures BucketRow(bucket, suppliers).Some?
    ensures BucketRow(bucket, suppliers).value.recommended == [Price(1100.0), Price(1100.0)]
  {
    SlotsOfPositivePrices(bucket, suppliers, 2);
    var ps := Prices(bucket);
    assert ps[..1] == [1000];
    assert ps[..2] == [1000, 1200];
    assert Min(ps[..2]) == 1000;
  }

  // ---------------------------------------------------------------- the loops of main.py:264-296

  /** `suppliers.index(s)` of a listed supplier is its position when no name occurs twice. */
  lemma IndexOfListed(suppliers: seq<Cell>, i: nat)
    requires Distinct(suppliers) && i < |suppliers|
    ensures IndexOf(suppliers, Some(suppliers[i])) == Some(i)
  {
  }

  /** The branch of main.py:267-281 for a bucket of several offers */
  method SeveralOffers(bucket: seq<Matched>, suppliers: seq<Cell>) returns (row: PriceRow)
    requires Distinct(suppliers)
    ensures row == PriceRow(SlotsAfter(bucket, suppliers, |suppliers|), PairsAfter(bucket, |suppliers|))
  {
    var customerPrices: seq<Pair> := [];
    var recommended := new Slot[|suppliers|](_ => Blank);
    assert recommended[..] == Blanks(|suppliers|);
    var minPrice: seq<int> := [];
    for i := 0 to |suppliers|
      invariant minPrice == MinPrices(bucket, i)
      invariant recommended[..] == SlotsAfter(bucket, suppliers, i)
      invariant customerPrices == PairsAfter(bucket, i)
    {
      IndexOfListed(suppliers, i);
      var index := IndexOf(suppliers, Some(suppliers[i])).value;
      if index < |bucket| {
        var offer := bucket[index].device;
        minPrice := minPrice + [offer.price];
        var m := Min(minPrice);
        if !(Price(m as real) in recommended[..]) {
          recommended[index] := Price(Markup(m));
        }
        customerPrices := customerPrices + [Offer(offer.customer, offer.price)];
      } else {
        customerPrices := customerPrices + [NoOffer];
      }
    }
    row := PriceRow(recommended[..], customerPrices);
  }

  /** The recommended prices and supplier/price pairs of one bucket (main.py:265-291) */
  method BucketPrices(bucket: seq<Matched>, suppliers: seq<Cell>) returns (row: Option<PriceRow>)
    requires |bucket| > 0 && Distinct(suppliers)
    ensures row == BucketRow(bucket, suppliers)
  {
    if |bucket| > 1 {
      var prices := SeveralOffers(bucket, suppliers);
      return Some(prices);
    }
    var offer := bucket[0].device;
    var found := IndexOf(suppliers, offer.customer);
    if found.None? {
      return None;
    }
    var recommended := new Slot[|suppliers|](_ => Blank);
    recommended[found.value] := Price(Markup(offer.price));
    assert recommended[..] == Blanks(|suppliers|)[found.value := Price(Markup(offer.price))];
    var customerPrices := [Offer(offer.customer, offer.price)];
    row := Some(PriceRow(recommended[..], customerPrices));
  }

  /** The rows of the matched report, one per key in insertion order; `None` when a row raises */
  function Report(keys: seq<string>, buckets: map<string, seq<Matched>>, suppliers: seq<Cell>): Option<seq<ReportRow>>
    requires forall i :: 0 <= i < |keys| ==> keys[i] in buckets && |buckets[keys[i]]| > 0
  {
    if |keys| == 0 then Some([])
    else
      var bucket := buckets[keys[|keys| - 1]];
      match Report(keys[..|keys| - 1], buckets, suppliers)
      case None => None
      case Some(rows) =>
        match BucketRow(bucket, suppliers)
        case None => None
        case Some(prices) => Some(rows + [ReportRow(bucket[0].product, prices)])
  }

  /** A single offer whose supplier is not in the list: `index()` raises ValueError. */
  predicate Unlisted(bucket: seq<Matched>, suppliers: seq<Cell>) {
    |bucket| == 1 && (bucket[0].device.customer.None? || bucket[0].device.customer.value !in suppliers)
  }

  /** The report fails exactly when some bucket is a single offer from an unlisted supplier. */
  lemma {:induction false} ReportFailsIffUnlisted(keys: seq<string>, buckets: map<string, seq<Matched>>, suppliers: seq<Cell>)
    requires forall i :: 0 <= i < |keys| ==> keys[i] in buckets && |buckets[keys[i]]| > 0
    requires Distinct(suppliers)
    ensures Report(keys, buckets, suppliers).None? <==> exists i :: 0 <= i < |keys| && Unlisted(buckets[keys[i]], suppliers)
  {
    if |keys| > 0 {
      var init := keys[..|keys| - 1];
      var bucket := buckets[keys[|keys| - 1]];
      ReportFailsIffUnlisted(init, buckets, suppliers);
      if |bucket| == 1 {
        SingleOfferRow(bucket, suppliers);
      }
      assert forall i :: 0 <= i < |init| ==> init[i] == keys[i];
    }
  }

  /**
   * A report that succeeds has one row per key, in key order, holding the bucket's
   * catalogue entry and the prices the bucket's own row computes.
   */
  lemma {:induction false} ReportRowContents(keys: seq<string>, buckets: map<string, seq<Matched>>, suppliers: seq<Cell>)
    requires forall i :: 0 <= i < |keys| ==> keys[i] in buckets && |buckets[keys[i]]| > 0
    ensures var r := Report(keys, buckets, suppliers);
      r.Some? ==> && |r.value| == |keys|
                  && forall i :: 0 <= i < |keys| ==>
                       r.value[i].product == buckets[keys[i]][0].product
                       && BucketRow(buckets[keys[i]], suppliers) == Some(r.value[i].prices)
  {
    var r := Report(keys, buckets, suppliers);
    if |keys| > 0 && r.Some? {
      var init := keys[..|keys| - 1];
      ReportRowContents(init, buckets, suppliers);
      var rows := Report(init, buckets, suppliers).value;
      assert r.value[..|init|] == rows;
      assert forall i :: 0 <= i < |init| ==> init[i] == keys[i] && r.value[i] == rows[i];
    }
  }

  /** The loop of main.py:264-296 over `matched.values()`; an exception ends it with no report */
  method MatchedReport(keys: seq<string>, buckets: map<string, seq<Matched>>, suppliers: seq<Cell>)
    returns (rows: Option<seq<ReportRow>>)
    requires forall i :: 0 <= i < |keys| ==> keys[i] in buckets && |buckets[keys[i]]| > 0
    requires Distinct(suppliers)
    ensures rows == Report(keys, buckets, suppliers)
  {
    var written: seq<ReportRow> := [];
    for i := 0 to |keys|
      invariant Report(keys[..i], buckets, suppliers) == Some(written)
    {
      var bucket := buckets[keys[i]];
      var prices := BucketPrices(bucket, suppliers);
      assert keys[..i + 1][..i] == keys[..i];
      if prices.None? {
        ReportFailsOnce(keys, buckets, suppliers, i + 1);
        return None;
      }
      written := written + [ReportRow(bucket[0].product, prices.value)];
    }
    assert keys[..|keys|] == keys;
    rows := Some(written);
  }

  /** Once a row fails, the report of any longer prefix fails too. */
  lemma {:induction false} ReportFailsOnce(keys: seq<string>, buckets: map<string, seq<Matched>>, suppliers: seq<Cell>, n: nat)
    requires forall i :: 0 <= i < |keys| ==> keys[i] in buckets && |buckets[keys[i]]| > 0
    requires n <= |keys| && Report(keys[..n], buckets, suppliers).None?
    ensures Report(keys, buckets, suppliers).None?
    decreases |keys| - n
  {
    if n < |keys| {
      assert keys[..n + 1][..n] == keys[..n];
      ReportFailsOnce(keys, buckets, suppliers, n + 1);
    } else {
      assert keys[..n] == keys;
    }
  }
}
