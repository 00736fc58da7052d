/** The module-level state of app.js that the snapshot callbacks and the
    filter inputs reassign (app.js:46-54): the cached product, category and
    history lists and the filtered product list derived from them. */
module ViewState {
  import opened Products
  import opened Chart
  import opened History

  class View {
    var allProducts: seq<Product>
    var filteredProducts: seq<Product>
    var categories: seq<string>
    var historyRows: seq<HistoryRow>

    /** The state at page load: every list empty. */
    constructor ()
      ensures allProducts == [] && filteredProducts == [] && categories == [] && historyRows == []
    {
      allProducts, filteredProducts, categories, historyRows := [], [], [], [];
    }

    /** The categories callback: the cached names are replaced by the snapshot's. */
    method OnCategoriesSnapshot(names: seq<string>)
      modifies this`categories
      ensures categories == names
    {
      categories := names;
    }

    /** `applyProductFilters`: recomputes `filteredProducts` from the cached
        list and the two filter inputs, then redraws the chart from it; the
        chart's buckets are returned. */
    method ApplyProductFilters(searchText: string, categoryFilter: string)
      returns (labels: seq<string>, grouped: map<string, int>)
      modifies this`filteredProducts
      ensures filteredProducts == FilterProducts(allProducts, searchText, categoryFilter)
      ensures forall p :: p in filteredProducts ==> p in allProducts
      ensures labels == BucketOrder(filteredProducts) && Distinct(labels)
      ensures forall k :: k in grouped <==> k in labels
      ensures forall k :: k in grouped ==> grouped[k] == SumFor(filteredProducts, k)
      ensures SumValues(labels, grouped) == TotalStock(filteredProducts)
    {
      filteredProducts := FilterProducts(allProducts, searchText, categoryFilter);
      ProductFilterSpec(allProducts, searchText, categoryFilter);
      labels, grouped := GroupByCategory(filteredProducts);
    }

    /** The products callback: the cached list is replaced wholesale by the
        snapshot (no merge with what was cached) and the filters re-applied. */
    method OnProductsSnapshot(docs: seq<Product>, searchText: string, categoryFilter: string)
      returns (labels: seq<string>, grouped: map<string, int>)
      modifies this`allProducts, this`filteredProducts
      ensures allProducts == docs
      ensures filteredProducts == FilterProducts(docs, searchText, categoryFilter)
      ensures labels == BucketOrder(filteredProducts) && Distinct(labels)
      ensures forall k :: k in grouped <==> k in labels
      ensures forall k :: k in grouped ==> grouped[k] == SumFor(filteredProducts, k)
      ensures SumValues(labels, grouped) == TotalStock(filteredProducts)
    {
      allProducts := docs;
      labels, grouped := ApplyProductFilters(searchText, categoryFilter);
    }

    /** `renderHistoryTable`: the rows shown for the current search term. */
    method RenderHistoryTable(searchTerm: string) returns (shown: seq<HistoryRow>)
      ensures shown == FilterHistory(historyRows, searchTerm)
      ensures forall r :: r in shown ==> r in historyRows && RowMatches(r, searchTerm)
    {
      shown := FilterHistory(historyRows, searchTerm);
      HistoryFilterSpec(historyRows, searchTerm);
    }

    /** The history callback: the cached rows are replaced by the snapshot and the table redrawn. */
    method OnHistorySnapshot(rows: seq<HistoryRow>, searchTerm: string) returns (shown: seq<HistoryRow>)
      modifies this`historyRows
      ensures historyRows == rows
      ensures shown == FilterHistory(rows, searchTerm)
    {
      historyRows := rows;
      shown := RenderHistoryTable(searchTerm);
    }
  }
}
