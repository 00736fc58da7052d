/** The product records of the live product view and the filter that
    `applyProductFilters` applies to them (app.js:262-272). */
module Products {
  import opened Wrappers
  import opened Text
  import Sequences

  /** A product document as the snapshot delivers it: every field but the
      document id may be missing. */
  datatype Product = Product(
    id: string,
    name: Option<string>,
    category: Option<string>,
    stock: Option<int>,
    createdBy: Option<string>)

  /** `p.stock || 0` (and `p.stock ?? 0`): a missing stock counts as zero. */
  function StockOf(p: Product): int
  {
    match p.stock
    case None => 0
    case Some(n) => n
  }

  /** `(p.name || "").toLowerCase().includes(query)`, with `query` already lower-cased. */
  predicate NameMatches(p: Product, query: string)
  {
    Contains(Lower(OrEmpty(p.name)), query)
  }

  /** An empty category filter accepts every product; otherwise the
      category must be present and equal to it, case included. */
  predicate CategoryMatches(p: Product, categoryFilter: string)
  {
    if categoryFilter == "" then true else p.category == Some(categoryFilter)
  }

  predicate Keep(p: Product, query: string, categoryFilter: string)
  {
    NameMatches(p, query) && CategoryMatches(p, categoryFilter)
  }

  /** `filteredProducts` computed from `allProducts`, the raw search text and
      the selected category: the search text is lower-cased, the category is not. */
  function FilterProducts(all: seq<Product>, searchText: string, categoryFilter: string): seq<Product>
  {
    var query := Lower(searchText);
    Sequences.Filter(all, p => Keep(p, query, categoryFilter))
  }

  /** The filtered view is an order-preserving subsequence of the full list,
      holds exactly the products whose lower-cased name includes the
      lower-cased search text and whose category equals a non-empty filter,
      and keeps everything when both inputs are empty. */
  lemma ProductFilterSpec(all: seq<Product>, searchText: string, categoryFilter: string)
    ensures Sequences.IsSubsequence(FilterProducts(all, searchText, categoryFilter), all)
    ensures forall p :: p in FilterProducts(all, searchText, categoryFilter) <==>
      p in all
      && Contains(Lower(OrEmpty(p.name)), Lower(searchText))
      && (categoryFilter != "" ==> p.category == Some(categoryFilter))
    ensures searchText == "" && categoryFilter == "" ==> FilterProducts(all, searchText, categoryFilter) == all
    ensures forall p :: multiset(FilterProducts(all, searchText, categoryFilter))[p]
                     == (if Keep(p, Lower(searchText), categoryFilter) then multiset(all)[p] else 0)
  {
    var query := Lower(searchText);
    var keep := p => Keep(p, query, categoryFilter);
    Sequences.FilterIsSubsequence(all, keep);
    forall p
      ensures multiset(FilterProducts(all, searchText, categoryFilter))[p] == if keep(p) then multiset(all)[p] else 0
    {
      Sequences.FilterCount(all, keep, p);
    }
    forall p
      ensures p in FilterProducts(all, searchText, categoryFilter) <==> p in all && keep(p)
    {
      Sequences.FilterMembership(all, keep, p);
    }
    if searchText == "" && categoryFilter == "" {
      forall i | 0 <= i < |all|
        ensures keep(all[i])
      {
        ContainsEmpty(Lower(OrEmpty(all[i].name)));
      }
      Sequences.FilterKeepsAll(all, keep);
    }
  }

  /** The search ignores case: texts that lower-case alike select the same products. */
  lemma SearchIgnoresCase(all: seq<Product>, s1: string, s2: string, categoryFilter: string)
    requires Lower(s1) == Lower(s2)
    ensures FilterProducts(all, s1, categoryFilter) == FilterProducts(all, s2, categoryFilter)
  {
  }

  function Apple(): Product { Product("a", Some("Apple"), Some("Fruit"), Some(5), None) }
  function Carrot(): Product { Product("c", Some("Carrot"), Some("Veg"), Some(3), None) }

  lemma AppleMatchesAp()
    ensures Keep(Apple(), "ap", "")
  {
    assert Lower(OrEmpty(Apple().name)) == "apple";
    assert IsPrefix("ap", "apple");
  }

  lemma CarrotMissesAp()
    ensures !Keep(Carrot(), "ap", "")
  {
    assert Lower(OrEmpty(Carrot().name)) == "carrot";
    if Contains("carrot", "ap") {
      ContainsChars("carrot", "ap", 'p');
      assert false;
    }
  }

  /** Searching "ap" finds Apple and not Carrot. */
  lemma SearchExample()
    ensures FilterProducts([Apple(), Carrot()], "ap", "") == [Apple()]
  {
    assert Lower("ap") == "ap";
    AppleMatchesAp();
    CarrotMissesAp();
    var byName := p => Keep(p, "ap", "");
    assert [Apple(), Carrot()][1..] == [Carrot()] && [Carrot()][1..] == [];
    assert Sequences.Filter([Carrot()], byName) == [];
  }

  /** Filtering by category "Veg" finds Carrot and not Apple. */
  lemma CategoryExample()
    ensures FilterProducts([Apple(), Carrot()], "", "Veg") == [Carrot()]
  {
    assert Lower("") == "";
    ContainsEmpty(Lower(OrEmpty(Carrot().name)));
    var byCategory := p => Keep(p, "", "Veg");
    assert !byCategory(Apple()) && byCategory(Carrot());
    assert [Apple(), Carrot()][1..] == [Carrot()] && [Carrot()][1..] == [];
  }
}
