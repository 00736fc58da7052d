/** The stock-per-category aggregation that `renderChart` feeds to the bar
    chart (app.js:277-285): a dictionary from category to summed stock, built
    one filtered product at a time, with its keys listed in first-seen order. */
module Chart {
  import opened Wrappers
  import opened Products

  /** The bucket used for a product without a category. */
  const Uncategorized: string := "Tanpa Kategori"

  /** `p.category || "Tanpa Kategori"`. */
  function BucketKey(p: Product): string
  {
    match p.category
    case None => Uncategorized
    case Some(c) => if c == "" then Uncategorized else c
  }

  /** A product lands in the sentinel bucket exactly when its category is
      missing, empty, or literally the sentinel name; otherwise in its own category. */
  lemma BucketKeyCases(p: Product)
    ensures BucketKey(p) == Uncategorized <==>
      p.category == None || p.category == Some("") || p.category == Some(Uncategorized)
    ensures p.category.Some? && p.category.value != "" ==> BucketKey(p) == p.category.value
  {
  }

  // ----- Specification: the sums the dictionary must hold -----

  /** Total stock of the products whose bucket is `key`. */
  function SumFor(ps: seq<Product>, key: string): int
  {
    if ps == [] then 0
    else SumFor(ps[..|ps| - 1], key) + (if BucketKey(ps[|ps| - 1]) == key then StockOf(ps[|ps| - 1]) else 0)
  }

  /** Total stock of all the products. */
  function TotalStock(ps: seq<Product>): int
  {
    if ps == [] then 0 else TotalStock(ps[..|ps| - 1]) + StockOf(ps[|ps| - 1])
  }

  /** The buckets in the order their first product appears (the order of `Object.keys`). */
  function BucketOrder(ps: seq<Product>): seq<string>
  {
    if ps == [] then []
    else
      var prev := BucketOrder(ps[..|ps| - 1]);
      var key := BucketKey(ps[|ps| - 1]);
      if key in prev then prev else prev + [key]
  }

  predicate Distinct(s: seq<string>)
  {
    forall i, j :: 0 <= i < j < |s| ==> s[i] != s[j]
  }

  /** Sum of `SumFor(ps, k)` over the keys `k` of `labels`. */
  function SumBuckets(ps: seq<Product>, labels: seq<string>): int
  {
    if labels == [] then 0
    else SumBuckets(ps, labels[..|labels| - 1]) + SumFor(ps, labels[|labels| - 1])
  }

  /** Sum of the dictionary's values over the keys of `labels`. */
  function SumValues(labels: seq<string>, grouped: map<string, int>): int
    requires forall k :: k in labels ==> k in grouped
  {
    if labels == [] then 0
    else SumValues(labels[..|labels| - 1], grouped) + grouped[labels[|labels| - 1]]
  }

  /** The bucket list has no repeats and names exactly the buckets some product falls in. */
  lemma {:induction false} BucketOrderSpec(ps: seq<Product>)
    ensures Distinct(BucketOrder(ps))
    ensures forall k :: k in BucketOrder(ps) <==> exists i :: 0 <= i < |ps| && BucketKey(ps[i]) == k
  {
    if ps != [] {
      var init := ps[..|ps| - 1];
      BucketOrderSpec(init);
      forall k
        ensures k in BucketOrder(ps) <==> exists i :: 0 <= i < |ps| && BucketKey(ps[i]) == k
      {
        if k in BucketOrder(init) {
          var i :| 0 <= i < |init| && BucketKey(init[i]) == k;
          assert BucketKey(ps[i]) == k;
        }
        if exists i :: 0 <= i < |ps| && BucketKey(ps[i]) == k {
          var i :| 0 <= i < |ps| && BucketKey(ps[i]) == k;
          if i < |init| {
            assert BucketKey(init[i]) == k;
          }
        }
      }
    }
  }

  /** A key no product falls in sums to zero. */
  lemma {:induction false} SumForAbsent(ps: seq<Product>, key: string)
    requires key !in BucketOrder(ps)
    ensures SumFor(ps, key) == 0
  {
    if ps != [] {
      SumForAbsent(ps[..|ps| - 1], key);
    }
  }

  /** Appending one product adds its stock to the distinct buckets it belongs to, once. */
  lemma {:induction false} SumBucketsSnoc(ps: seq<Product>, p: Product, labels: seq<string>)
    requires Distinct(labels)
    ensures SumBuckets(ps + [p], labels) ==
      SumBuckets(ps, labels) + (if BucketKey(p) in labels then StockOf(p) else 0)
  {
    if labels != [] {
      var init := labels[..|labels| - 1];
      assert (ps + [p])[..|ps + [p]| - 1] == ps;
      SumBucketsSnoc(ps, p, init);
      assert BucketKey(p) in labels <==> BucketKey(p) in init || BucketKey(p) == labels[|labels| - 1];
    }
  }

  /** No product is dropped or counted twice: the buckets add up to the total stock. */
  lemma {:induction false} BucketsSumToTotal(ps: seq<Product>)
    ensures SumBuckets(ps, BucketOrder(ps)) == TotalStock(ps)
  {
    if ps != [] {
      var init, p := ps[..|ps| - 1], ps[|ps| - 1];
      var labels := BucketOrder(init);
      assert ps == init + [p];
      BucketsSumToTotal(init);
      BucketOrderSpec(init);
      SumBucketsSnoc(init, p, labels);
      if BucketKey(p) !in labels {
        SumForAbsent(init, BucketKey(p));
        assert (labels + [BucketKey(p)])[..|labels|] == labels;
      }
    }
  }

  /** Summing stored values equals summing the specified sums when they agree key by key. */
  lemma {:induction false} SumValuesAgree(ps: seq<Product>, labels: seq<string>, grouped: map<string, int>)
    requires forall k :: k in labels ==> k in grouped && grouped[k] == SumFor(ps, k)
    ensures SumValues(labels, grouped) == SumBuckets(ps, labels)
  {
    if labels != [] {
      SumValuesAgree(ps, labels[..|labels| - 1], grouped);
    }
  }

  /** The chart example: Apple and Carrot give {Fruit: 5, Veg: 3}, and a
      product without a category goes to the sentinel bucket. */
  lemma GroupingExample()
    ensures BucketOrder([Apple(), Carrot()]) == ["Fruit", "Veg"]
    ensures SumFor([Apple(), Carrot()], "Fruit") == 5 && SumFor([Apple(), Carrot()], "Veg") == 3
    ensures BucketOrder([Product("x", Some("Pen"), Some(""), Some(2), None)]) == [Uncategorized]
  {
    var ps := [Apple(), Carrot()];
    assert ps[..1] == [Apple()] && ps[..1][..0] == [];
  }

  // ----- The loop of renderChart -----

  /** Builds `grouped` (and its key order `labels`, what `Object.keys` lists)
      from the filtered products: every bucket holds the total stock of its
      products, the keys are distinct and are exactly the buckets that occur,
      and the values add up to the total stock. */
  method GroupByCategory(ps: seq<Product>) returns (labels: seq<string>, grouped: map<string, int>)
    ensures labels == BucketOrder(ps) && Distinct(labels)
    ensures forall k :: k in grouped <==> k in labels
    ensures forall k :: k in grouped ==> grouped[k] == SumFor(ps, k)
    ensures SumValues(labels, grouped) == TotalStock(ps)
  {
    labels, grouped := [], map[];
    var i := 0;
    while i < |ps|
      invariant 0 <= i <= |ps|
      invariant labels == BucketOrder(ps[..i])
      invariant forall k :: k in grouped <==> k in labels
      invariant forall k :: k in grouped ==> grouped[k] == SumFor(ps[..i], k)
    {
      var p := ps[i];
      var key := BucketKey(p);
      assert ps[..i + 1][..i] == ps[..i];
      if key !in grouped {
        SumForAbsent(ps[..i], key);
        labels := labels + [key];
      }
      var current := if key in grouped then grouped[key] else 0;
      grouped := grouped[key := current + StockOf(p)];
      i := i + 1;
    }
    assert ps[..i] == ps;
    BucketOrderSpec(ps);
    SumValuesAgree(ps, labels, grouped);
    BucketsSumToTotal(ps);
  }
}
